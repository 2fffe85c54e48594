/**
 * The evidence-window pipeline (`domain/window/window_orchestrator.ts`,
 * `domain/window/window_service.ts`): each evidence of a window goes through
 * three LLM stages, l1 cleaning, l2 neutralisation and l3 abstraction, each
 * reading the previous stage's text.  A stage's requests are enqueued for
 * the evidences still missing its output; every completion or error notice
 * re-counts the stage and moves the window on, fails it, or completes it.
 *
 * A mutation that throws leaves every table as it was (a Convex mutation
 * is a transaction); the outcome then carries the message.
 */
module Windows {
  import opened Wrappers
  import opened JsArrays
  import opened Documents
  import opened CustomKeys
  import opened LlmCalls
  import Providers

  // ---------------------------------------------------------------------
  // Stages and their configuration

  datatype SemanticLevel = L0Raw | L1Cleaned | L2Neutralized | L3Abstracted

  function LevelName(l: SemanticLevel): string
  {
    match l
    case L0Raw => "l0_raw"
    case L1Cleaned => "l1_cleaned"
    case L2Neutralized => "l2_neutralized"
    case L3Abstracted => "l3_abstracted"
  }

  /** The level a stage string names (`stage as SemanticLevel` is only a cast). */
  function LevelNamed(name: string): (l: Option<SemanticLevel>)
    ensures l.Some? ==> LevelName(l.value) == name
  {
    if name == "l0_raw" then Some(L0Raw)
    else if name == "l1_cleaned" then Some(L1Cleaned)
    else if name == "l2_neutralized" then Some(L2Neutralized)
    else if name == "l3_abstracted" then Some(L3Abstracted)
    else None
  }

  /** Level names read back and hold no key separator. */
  lemma LevelNameRoundTrip(l: SemanticLevel)
    ensures LevelNamed(LevelName(l)) == Some(l) && ':' !in LevelName(l)
  {
  }

  datatype ContentField = L0RawContent | L1CleanedContent | L2NeutralizedContent | L3AbstractedContent
  datatype RequestIdField = L1RequestId | L2RequestId | L3RequestId

  datatype Evidence = Evidence(
    windowId: nat,
    l0RawContent: string,
    l1CleanedContent: Option<string>,
    l1RequestId: Option<nat>,
    l2NeutralizedContent: Option<string>,
    l2RequestId: Option<nat>,
    l3AbstractedContent: Option<string>,
    l3RequestId: Option<nat>)

  datatype Window = Window(status: string, currentStage: SemanticLevel, model: string)

  /** `evidence[field]`; the raw text is never null. */
  function Content(e: Evidence, f: ContentField): Option<string>
  {
    match f
    case L0RawContent => Some(e.l0RawContent)
    case L1CleanedContent => e.l1CleanedContent
    case L2NeutralizedContent => e.l2NeutralizedContent
    case L3AbstractedContent => e.l3AbstractedContent
  }

  function RequestIdAt(e: Evidence, f: RequestIdField): Option<nat>
  {
    match f
    case L1RequestId => e.l1RequestId
    case L2RequestId => e.l2RequestId
    case L3RequestId => e.l3RequestId
  }

  datatype StageConfig = StageConfig(inputField: ContentField, outputField: ContentField, requestIdField: RequestIdField)

  /** `getStageConfig`: `STAGE_CONFIGS[stage]`, and a throw for the raw level. */
  function StageConfigOf(stage: SemanticLevel): (r: Result<StageConfig>)
    ensures r.Failure? <==> stage == L0Raw
  {
    match stage
    case L0Raw => Failure("l0_raw is not a processing stage")
    case L1Cleaned => Success(StageConfig(L0RawContent, L1CleanedContent, L1RequestId))
    case L2Neutralized => Success(StageConfig(L1CleanedContent, L2NeutralizedContent, L2RequestId))
    case L3Abstracted => Success(StageConfig(L2NeutralizedContent, L3AbstractedContent, L3RequestId))
  }

  const UndefinedRead := "Cannot read properties of undefined"

  /**
   * `getStageConfig(stage)` on the stage part of a key: an unknown or
   * missing stage reads `undefined` from the table, and the first use of
   * the result throws.
   */
  function StageConfigNamed(stage: Option<string>): (r: Result<StageConfig>)
    ensures r.Success? <==> stage.Some? && LevelNamed(stage.value).Some? && stage.value != "l0_raw"
  {
    if stage.None? || LevelNamed(stage.value).None? then Failure(UndefinedRead)
    else StageConfigOf(LevelNamed(stage.value).value)
  }

  /** The window's stage order. */
  function NextStage(stage: SemanticLevel): (n: Option<SemanticLevel>)
  {
    match stage
    case L0Raw => None
    case L1Cleaned => Some(L2Neutralized)
    case L2Neutralized => Some(L3Abstracted)
    case L3Abstracted => None
  }

  /** Each stage reads the text the stage before it wrote, and the first one reads the raw text. */
  lemma StagesChain(stage: SemanticLevel)
    requires stage != L0Raw
    ensures StageConfigOf(stage).Success?
    ensures stage == L1Cleaned ==> StageConfigOf(stage).value.inputField == L0RawContent
    ensures NextStage(stage).Some? ==>
      StageConfigOf(NextStage(stage).value).Success?
      && StageConfigOf(NextStage(stage).value).value.inputField == StageConfigOf(stage).value.outputField
  {
  }

  /** Different stages write different fields, so no stage overwrites another's output. */
  lemma StageFieldsDistinct(s: SemanticLevel, t: SemanticLevel)
    requires s != L0Raw && t != L0Raw && s != t
    ensures StageConfigOf(s).value.outputField != StageConfigOf(t).value.outputField
    ensures StageConfigOf(s).value.requestIdField != StageConfigOf(t).value.requestIdField
    ensures StageConfigOf(s).value.outputField != StageConfigOf(s).value.inputField
  {
  }

  /** `nextStageFor`: l1 is followed by l2, l2 by l3, and nothing follows l3 (nor the raw level). */
  lemma NextStageOrder(stage: SemanticLevel)
    ensures NextStage(stage).None? <==> stage == L0Raw || stage == L3Abstracted
    ensures NextStage(stage).Some? ==> NextStage(stage).value != L0Raw && NextStage(stage).value != stage
  {
  }

  /** `{ [outputField]: output, [requestIdField]: requestId }`. */
  function WithResult(e: Evidence, cfg: StageConfig, output: string, requestId: nat): (r: Evidence)
    ensures cfg.outputField != L0RawContent ==> Content(r, cfg.outputField) == Some(output)
    ensures RequestIdAt(r, cfg.requestIdField) == Some(requestId)
    ensures r.windowId == e.windowId
  {
    var e1 := match cfg.outputField
      case L0RawContent => e.(l0RawContent := output)
      case L1CleanedContent => e.(l1CleanedContent := Some(output))
      case L2NeutralizedContent => e.(l2NeutralizedContent := Some(output))
      case L3AbstractedContent => e.(l3AbstractedContent := Some(output));
    match cfg.requestIdField
    case L1RequestId => e1.(l1RequestId := Some(requestId))
    case L2RequestId => e1.(l2RequestId := Some(requestId))
    case L3RequestId => e1.(l3RequestId := Some(requestId))
  }

  // ---------------------------------------------------------------------
  // Keys

  const RequestKeyError := "Unexpected target type in key: "
  const ProcessKeyError := "Unexpected process type in key: "

  /** `makeRequestKey`: `evidence:<evidence id>:<stage>`. */
  function EvidenceKey(evidenceId: nat, stage: string): string
  {
    MakeKey("evidence", IdText(evidenceId), stage)
  }

  /** `makeProcessKey`: `window:<window id>:<stage>`. */
  function WindowKey(windowId: nat, stage: string): string
  {
    MakeKey("window", IdText(windowId), stage)
  }

  function ParseRequestKey(key: string): Result<KeyParts>
  {
    ParseKey("evidence", RequestKeyError, key)
  }

  function ParseProcessKey(key: string): Result<KeyParts>
  {
    ParseKey("window", ProcessKeyError, key)
  }

  /** A request key reads back as its evidence and its stage. */
  lemma RequestKeyRoundTrip(evidenceId: nat, stage: SemanticLevel)
    ensures ParseRequestKey(EvidenceKey(evidenceId, LevelName(stage))) == Success(KeyParts(Some(IdText(evidenceId)), Some(LevelName(stage))))
    ensures IdOf(IdText(evidenceId)) == Some(evidenceId) && LevelNamed(LevelName(stage)) == Some(stage)
  {
    IdTextNoColon(evidenceId);
    IdRoundTrip(evidenceId);
    ParseMakeKey("evidence", RequestKeyError, IdText(evidenceId), LevelName(stage));
  }

  /** A process key reads back as its window and its stage. */
  lemma ProcessKeyRoundTrip(windowId: nat, stage: SemanticLevel)
    ensures ParseProcessKey(WindowKey(windowId, LevelName(stage))) == Success(KeyParts(Some(IdText(windowId)), Some(LevelName(stage))))
    ensures IdOf(IdText(windowId)) == Some(windowId)
  {
    IdTextNoColon(windowId);
    IdRoundTrip(windowId);
    ParseMakeKey("window", ProcessKeyError, IdText(windowId), LevelName(stage));
  }

  /** Request keys of different evidences or stages differ. */
  lemma EvidenceKeyInjective(a: nat, s: SemanticLevel, b: nat, t: SemanticLevel)
    requires EvidenceKey(a, LevelName(s)) == EvidenceKey(b, LevelName(t))
    ensures a == b && s == t
  {
    IdTextNoColon(a);
    IdTextNoColon(b);
    MakeKeyInjective("evidence", IdText(a), LevelName(s), IdText(b), LevelName(t));
    IdTextInjective(a, b);
    LevelNameRoundTrip(s);
    LevelNameRoundTrip(t);
  }

  /** A request key is never mistaken for a process key: the process parse rejects it. */
  lemma RequestKeyIsNotProcessKey(evidenceId: nat, stage: SemanticLevel)
    ensures ParseProcessKey(EvidenceKey(evidenceId, LevelName(stage))).Failure?
  {
    RequestKeyRoundTrip(evidenceId, stage);
  }

  // ---------------------------------------------------------------------
  // The tables

  datatype WindowDb = WindowDb(windows: seq<Window>, evidences: seq<Evidence>, llm: LlmTables)

  /** What a mutation leaves behind: the tables, and the message if it threw. */
  datatype Outcome = Done(db: WindowDb) | Threw(db: WindowDb, message: string)

  /** The stage prompts (`evidence_prompts.ts`), supplied from outside. */
  type Prompter = SemanticLevel -> string -> Prompts

  predicate Terminal(status: string)
  {
    status == "completed" || status == "canceled" || status == "error"
  }

  function RequestKeyFor(stage: SemanticLevel): string -> string
  {
    (targetId: string) => MakeKey("evidence", targetId, LevelName(stage))
  }

  // ---------------------------------------------------------------------
  // listPendingTargets

  /** The `by_window_lN_pending` index: the window's evidence with neither output nor request id. */
  predicate Awaiting(e: Evidence, windowId: nat, cfg: StageConfig)
  {
    e.windowId == windowId && Content(e, cfg.outputField).None? && RequestIdAt(e, cfg.requestIdField).None?
  }

  /** An awaiting evidence with input, no pending request and attempts left becomes a target. */
  predicate Eligible(e: Evidence, id: nat, rs: seq<LlmRequest>, windowId: nat, stage: SemanticLevel,
                     cfg: StageConfig, maxAttempts: int)
  {
    Awaiting(e, windowId, cfg) && Content(e, cfg.inputField).Some?
    && !HasPending(rs, EvidenceKey(id, LevelName(stage)))
    && KeyAttempts(rs, EvidenceKey(id, LevelName(stage))) < maxAttempts
  }

  function TargetOf(e: Evidence, id: nat, cfg: StageConfig): PendingTarget
  {
    PendingTarget(IdText(id), Content(e, cfg.inputField).GetOr(""))
  }

  /** The targets among the first n evidences, in table order. */
  function PendingTargets(db: WindowDb, n: nat, windowId: nat, stage: SemanticLevel, cfg: StageConfig,
                          maxAttempts: int): (ts: seq<PendingTarget>)
    requires n <= |db.evidences|
    ensures |ts| <= n
  {
    if n == 0 then []
    else
      var e := db.evidences[n - 1];
      PendingTargets(db, n - 1, windowId, stage, cfg, maxAttempts)
      + (if Eligible(e, n - 1, db.llm.requests, windowId, stage, cfg, maxAttempts) then [TargetOf(e, n - 1, cfg)] else [])
  }

  /** Evidence i is eligible and gives the target t. */
  predicate GivesTarget(db: WindowDb, i: nat, windowId: nat, stage: SemanticLevel, cfg: StageConfig,
                        maxAttempts: int, t: PendingTarget)
    requires i < |db.evidences|
  {
    Eligible(db.evidences[i], i, db.llm.requests, windowId, stage, cfg, maxAttempts) && t == TargetOf(db.evidences[i], i, cfg)
  }

  /** One of the first n evidences gives the target t. */
  predicate SomeGives(db: WindowDb, n: nat, windowId: nat, stage: SemanticLevel, cfg: StageConfig,
                      maxAttempts: int, t: PendingTarget)
    requires n <= |db.evidences|
  {
    exists i :: 0 <= i < n && GivesTarget(db, i, windowId, stage, cfg, maxAttempts, t)
  }

  /** A target is listed exactly when an eligible evidence gives it, with that evidence's input. */
  lemma {:induction false} PendingTargetsMembers(db: WindowDb, n: nat, windowId: nat, stage: SemanticLevel,
                                                 cfg: StageConfig, maxAttempts: int, t: PendingTarget)
    requires n <= |db.evidences|
    ensures t in PendingTargets(db, n, windowId, stage, cfg, maxAttempts) <==> SomeGives(db, n, windowId, stage, cfg, maxAttempts, t)
  {
    if n > 0 {
      var prior := PendingTargets(db, n - 1, windowId, stage, cfg, maxAttempts);
      PendingTargetsMembers(db, n - 1, windowId, stage, cfg, maxAttempts, t);
      assert t in PendingTargets(db, n, windowId, stage, cfg, maxAttempts) <==>
        t in prior || GivesTarget(db, n - 1, windowId, stage, cfg, maxAttempts, t);
      GivesStep(db, n, windowId, stage, cfg, maxAttempts, t);
    }
  }

  lemma GivesStep(db: WindowDb, n: nat, windowId: nat, stage: SemanticLevel, cfg: StageConfig,
                  maxAttempts: int, t: PendingTarget)
    requires 0 < n <= |db.evidences|
    ensures SomeGives(db, n, windowId, stage, cfg, maxAttempts, t) <==>
      SomeGives(db, n - 1, windowId, stage, cfg, maxAttempts, t) || GivesTarget(db, n - 1, windowId, stage, cfg, maxAttempts, t)
  {
    if SomeGives(db, n, windowId, stage, cfg, maxAttempts, t) {
      var i :| 0 <= i < n && GivesTarget(db, i, windowId, stage, cfg, maxAttempts, t);
      if i < n - 1 {
        assert SomeGives(db, n - 1, windowId, stage, cfg, maxAttempts, t);
      }
    }
    if SomeGives(db, n - 1, windowId, stage, cfg, maxAttempts, t) {
      var i :| 0 <= i < n - 1 && GivesTarget(db, i, windowId, stage, cfg, maxAttempts, t);
      assert 0 <= i < n;
    }
  }

  predicate DistinctTargets(ts: seq<PendingTarget>)
  {
    forall a, b :: 0 <= a < b < |ts| ==> ts[a].targetId != ts[b].targetId
  }

  /** Each evidence is listed at most once: the targets' ids are distinct. */
  lemma {:induction false} PendingTargetsDistinct(db: WindowDb, n: nat, windowId: nat, stage: SemanticLevel,
                                                  cfg: StageConfig, maxAttempts: int)
    requires n <= |db.evidences|
    ensures DistinctTargets(PendingTargets(db, n, windowId, stage, cfg, maxAttempts))
  {
    if n > 0 {
      var prior := PendingTargets(db, n - 1, windowId, stage, cfg, maxAttempts);
      PendingTargetsDistinct(db, n - 1, windowId, stage, cfg, maxAttempts);
      assert DistinctTargets(prior);
      var e := db.evidences[n - 1];
      if Eligible(e, n - 1, db.llm.requests, windowId, stage, cfg, maxAttempts) {
        var last := TargetOf(e, n - 1, cfg);
        forall a | 0 <= a < |prior|
          ensures prior[a].targetId != last.targetId
        {
          var i := ListedIndex(db, n - 1, windowId, stage, cfg, maxAttempts, prior[a]);
          if prior[a].targetId == last.targetId {
            IdTextInjective(i, n - 1);
          }
        }
        DistinctSnoc(prior, last);
        assert prior + [last] == PendingTargets(db, n, windowId, stage, cfg, maxAttempts);
      }
    }
  }

  /** A listed target names one of the evidences it was listed from. */
  lemma ListedIndex(db: WindowDb, n: nat, windowId: nat, stage: SemanticLevel, cfg: StageConfig,
                    maxAttempts: int, t: PendingTarget) returns (i: nat)
    requires n <= |db.evidences| && t in PendingTargets(db, n, windowId, stage, cfg, maxAttempts)
    ensures i < n && t.targetId == IdText(i)
  {
    PendingTargetsMembers(db, n, windowId, stage, cfg, maxAttempts, t);
    i :| 0 <= i < n && GivesTarget(db, i, windowId, stage, cfg, maxAttempts, t);
  }

  lemma DistinctSnoc(prior: seq<PendingTarget>, last: PendingTarget)
    requires DistinctTargets(prior)
    requires forall a :: 0 <= a < |prior| ==> prior[a].targetId != last.targetId
    ensures DistinctTargets(prior + [last])
  {
    var ts := prior + [last];
    forall a, b | 0 <= a < b < |ts| ensures ts[a].targetId != ts[b].targetId {
      if b < |prior| {
        assert ts[a] == prior[a] && ts[b] == prior[b];
      } else {
        assert ts[a] == prior[a] && ts[b] == last;
      }
    }
  }

  /** The targets of a stage: a throw for the raw level, otherwise every eligible evidence. */
  function ListPendingTargetsSpec(db: WindowDb, windowId: nat, stage: SemanticLevel, maxAttempts: int): Result<seq<PendingTarget>>
  {
    match StageConfigOf(stage)
    case Failure(e) => Failure(e)
    case Success(cfg) => Success(PendingTargets(db, |db.evidences|, windowId, stage, cfg, maxAttempts))
  }

  // ---------------------------------------------------------------------
  // enqueueStage

  /**
   * `enqueueStage(windowId, stage)`: no targets leaves everything as it is;
   * otherwise the window's model routes one request per target into a new
   * batch or job under the window's process key.
   */
  function EnqueueSpec(db: WindowDb, windowId: nat, stage: SemanticLevel, policy: EnginePolicy, prompter: Prompter): Outcome
  {
    match ListPendingTargetsSpec(db, windowId, stage, policy.maxRequestAttempts)
    case Failure(e) => Threw(db, e)
    case Success(targets) =>
      if |targets| == 0 then Done(db)
      else if windowId >= |db.windows| then Threw(db, "Window not found")
      else
        var model := db.windows[windowId].model;
        if Providers.ModelById(model).Failure? then Threw(db, UndefinedRead)
        else Done(db.(llm := Enqueued(db.llm, targets, model, prompter(stage), RequestKeyFor(stage),
                                     WindowKey(windowId, LevelName(stage)), policy)))
  }

  /** Enqueueing only ever adds LLM rows: windows and evidences are untouched. */
  lemma EnqueueSpecFrame(db: WindowDb, windowId: nat, stage: SemanticLevel, policy: EnginePolicy, prompter: Prompter)
    ensures var o := EnqueueSpec(db, windowId, stage, policy, prompter);
      o.db.windows == db.windows && o.db.evidences == db.evidences
      && |db.llm.requests| <= |o.db.llm.requests| && o.db.llm.requests[..|db.llm.requests|] == db.llm.requests
    ensures EnqueueSpec(db, windowId, stage, policy, prompter).Threw? ==> EnqueueSpec(db, windowId, stage, policy, prompter).db == db
  {
    var o := EnqueueSpec(db, windowId, stage, policy, prompter);
    if o.Done? && o.db != db {
      var cfg := StageConfigOf(stage).value;
      var targets := PendingTargets(db, |db.evidences|, windowId, stage, cfg, policy.maxRequestAttempts);
      var model := db.windows[windowId].model;
      EnqueuedKeepsRows(db.llm, targets, model, prompter(stage), RequestKeyFor(stage), WindowKey(windowId, LevelName(stage)), policy);
    }
  }

  /** An enqueue that adds requests is a processing stage of an existing window with a known model. */
  lemma EnqueueSpecShape(db: WindowDb, windowId: nat, stage: SemanticLevel, policy: EnginePolicy, prompter: Prompter)
    requires |db.llm.requests| < |EnqueueSpec(db, windowId, stage, policy, prompter).db.llm.requests|
    ensures stage != L0Raw && windowId < |db.windows| && Providers.ModelById(db.windows[windowId].model).Success?
    ensures EnqueueSpec(db, windowId, stage, policy, prompter).db.llm
         == Enqueued(db.llm, PendingTargets(db, |db.evidences|, windowId, stage, StageConfigOf(stage).value, policy.maxRequestAttempts),
                     db.windows[windowId].model, prompter(stage), RequestKeyFor(stage), WindowKey(windowId, LevelName(stage)), policy)
  {
  }

  /** The requests a stage's enqueue adds all carry that stage's request keys. */
  lemma EnqueueSpecKeys(db: WindowDb, windowId: nat, stage: SemanticLevel, policy: EnginePolicy, prompter: Prompter, k: nat)
    requires |db.llm.requests| <= k < |EnqueueSpec(db, windowId, stage, policy, prompter).db.llm.requests|
    ensures exists id: nat :: EnqueueSpec(db, windowId, stage, policy, prompter).db.llm.requests[k].customKey == EvidenceKey(id, LevelName(stage))
  {
    EnqueueSpecShape(db, windowId, stage, policy, prompter);
    var cfg := StageConfigOf(stage).value;
    var targets := PendingTargets(db, |db.evidences|, windowId, stage, cfg, policy.maxRequestAttempts);
    var j := k - |db.llm.requests|;
    var i := PendingTargetEvidence(db, windowId, stage, cfg, policy.maxRequestAttempts, j);
    EnqueuedKey(db.llm, targets, db.windows[windowId].model, prompter(stage), stage, WindowKey(windowId, LevelName(stage)), policy, j, i);
  }

  /** Every listed target names an evidence row by its id. */
  lemma PendingTargetEvidence(db: WindowDb, windowId: nat, stage: SemanticLevel, cfg: StageConfig, maxAttempts: int, j: nat)
    returns (i: nat)
    requires j < |PendingTargets(db, |db.evidences|, windowId, stage, cfg, maxAttempts)|
    ensures i < |db.evidences| && PendingTargets(db, |db.evidences|, windowId, stage, cfg, maxAttempts)[j].targetId == IdText(i)
  {
    var t := PendingTargets(db, |db.evidences|, windowId, stage, cfg, maxAttempts)[j];
    PendingTargetsMembers(db, |db.evidences|, windowId, stage, cfg, maxAttempts, t);
    i :| 0 <= i < |db.evidences| && GivesTarget(db, i, windowId, stage, cfg, maxAttempts, t);
  }

  /** A request created for a target naming evidence i carries i's key for the stage. */
  lemma EnqueuedKey(t: LlmTables, targets: seq<PendingTarget>, model: string, prompts: string -> Prompts, stage: SemanticLevel,
                    processKey: string, policy: EnginePolicy, j: nat, i: nat)
    requires Providers.ModelById(model).Success? && j < |targets| && targets[j].targetId == IdText(i)
    ensures Enqueued(t, targets, model, prompts, RequestKeyFor(stage), processKey, policy).requests[|t.requests| + j].customKey
         == EvidenceKey(i, LevelName(stage))
  {
    EnqueuedRequest(t, targets, model, prompts, RequestKeyFor(stage), processKey, policy, j);
  }

  // ---------------------------------------------------------------------
  // maybeAdvanceWindowStage

  /** Where one evidence stands in a stage: done, out of attempts, or still going. */
  datatype Progress = Finished | Stuck | Waiting

  /**
   * An output means done; a pending request, or none at all, means still
   * going; otherwise the attempts decide.
   */
  function ProgressOf(e: Evidence, id: nat, rs: seq<LlmRequest>, stage: SemanticLevel, cfg: StageConfig,
                      maxAttempts: int): Progress
  {
    if Content(e, cfg.outputField).Some? then Finished
    else
      var key := EvidenceKey(id, LevelName(stage));
      if HasPending(rs, key) then Waiting
      else if Count(rs, KeyIs(key)) == 0 then Waiting
      else if KeyAttempts(rs, key) >= maxAttempts then Stuck
      else Waiting
  }

  /** The counters of the stage loop. */
  datatype Tally = Tally(evidences: nat, completed: nat, failed: nat, hasPending: bool)

  /** With nothing pending, every counted evidence is either completed or failed. */
  predicate Settled(t: Tally)
  {
    !t.hasPending ==> t.completed + t.failed == t.evidences
  }

  /** The counters over the window's evidences among the first n rows. */
  function TallyOf(db: WindowDb, n: nat, windowId: nat, stage: SemanticLevel, cfg: StageConfig, maxAttempts: int): Tally
    requires n <= |db.evidences|
  {
    if n == 0 then Tally(0, 0, 0, false)
    else
      var t := TallyOf(db, n - 1, windowId, stage, cfg, maxAttempts);
      var e := db.evidences[n - 1];
      if e.windowId != windowId then t
      else match ProgressOf(e, n - 1, db.llm.requests, stage, cfg, maxAttempts)
        case Finished => t.(evidences := t.evidences + 1, completed := t.completed + 1)
        case Stuck => t.(evidences := t.evidences + 1, failed := t.failed + 1)
        case Waiting => t.(evidences := t.evidences + 1, hasPending := true)
  }

  /** Some evidence of the window among the first n rows stands at p. */
  predicate SomeAt(db: WindowDb, n: nat, windowId: nat, stage: SemanticLevel, cfg: StageConfig, maxAttempts: int, p: Progress)
    requires n <= |db.evidences|
  {
    exists i :: 0 <= i < n && db.evidences[i].windowId == windowId
                && ProgressOf(db.evidences[i], i, db.llm.requests, stage, cfg, maxAttempts) == p
  }

  predicate HasEvidence(db: WindowDb, n: nat, windowId: nat)
    requires n <= |db.evidences|
  {
    exists i :: 0 <= i < n && db.evidences[i].windowId == windowId
  }

  /** Extending the rows by one adds that row's progress, if it belongs to the window. */
  lemma SomeAtStep(db: WindowDb, n: nat, windowId: nat, stage: SemanticLevel, cfg: StageConfig, maxAttempts: int, q: Progress)
    requires 0 < n <= |db.evidences|
    ensures SomeAt(db, n, windowId, stage, cfg, maxAttempts, q) <==>
      SomeAt(db, n - 1, windowId, stage, cfg, maxAttempts, q)
      || (db.evidences[n - 1].windowId == windowId
          && ProgressOf(db.evidences[n - 1], n - 1, db.llm.requests, stage, cfg, maxAttempts) == q)
  {
    if SomeAt(db, n, windowId, stage, cfg, maxAttempts, q) {
      var i :| 0 <= i < n && db.evidences[i].windowId == windowId
               && ProgressOf(db.evidences[i], i, db.llm.requests, stage, cfg, maxAttempts) == q;
      if i < n - 1 {
        assert SomeAt(db, n - 1, windowId, stage, cfg, maxAttempts, q);
      }
    }
    if SomeAt(db, n - 1, windowId, stage, cfg, maxAttempts, q) {
      var i :| 0 <= i < n - 1 && db.evidences[i].windowId == windowId
               && ProgressOf(db.evidences[i], i, db.llm.requests, stage, cfg, maxAttempts) == q;
      assert 0 <= i < n;
    }
  }

  lemma HasEvidenceStep(db: WindowDb, n: nat, windowId: nat)
    requires 0 < n <= |db.evidences|
    ensures HasEvidence(db, n, windowId) <==> HasEvidence(db, n - 1, windowId) || db.evidences[n - 1].windowId == windowId
  {
    if HasEvidence(db, n, windowId) {
      var i :| 0 <= i < n && db.evidences[i].windowId == windowId;
      if i < n - 1 {
        assert HasEvidence(db, n - 1, windowId);
      }
    }
    if HasEvidence(db, n - 1, windowId) {
      var i :| 0 <= i < n - 1 && db.evidences[i].windowId == windowId;
      assert 0 <= i < n;
    }
  }

  /** What each counter of the stage loop means. */
  lemma {:induction false} TallyMeaning(db: WindowDb, n: nat, windowId: nat, stage: SemanticLevel, cfg: StageConfig, maxAttempts: int)
    requires n <= |db.evidences|
    ensures var t := TallyOf(db, n, windowId, stage, cfg, maxAttempts);
      (t.hasPending <==> SomeAt(db, n, windowId, stage, cfg, maxAttempts, Waiting))
      && (t.completed > 0 <==> SomeAt(db, n, windowId, stage, cfg, maxAttempts, Finished))
      && (t.failed > 0 <==> SomeAt(db, n, windowId, stage, cfg, maxAttempts, Stuck))
      && (t.evidences > 0 <==> HasEvidence(db, n, windowId))
      && Settled(t)
  {
    if n > 0 {
      TallyMeaning(db, n - 1, windowId, stage, cfg, maxAttempts);
      SomeAtStep(db, n, windowId, stage, cfg, maxAttempts, Waiting);
      SomeAtStep(db, n, windowId, stage, cfg, maxAttempts, Finished);
      SomeAtStep(db, n, windowId, stage, cfg, maxAttempts, Stuck);
      HasEvidenceStep(db, n, windowId);
      var e := db.evidences[n - 1];
      TallyBump(TallyOf(db, n - 1, windowId, stage, cfg, maxAttempts), TallyOf(db, n, windowId, stage, cfg, maxAttempts),
                e.windowId == windowId, ProgressOf(e, n - 1, db.llm.requests, stage, cfg, maxAttempts),
                SomeAt(db, n - 1, windowId, stage, cfg, maxAttempts, Waiting),
                SomeAt(db, n - 1, windowId, stage, cfg, maxAttempts, Finished),
                SomeAt(db, n - 1, windowId, stage, cfg, maxAttempts, Stuck),
                HasEvidence(db, n - 1, windowId));
    }
  }

  /** One turn of the stage loop on the counters alone: the flags and counts gain the row's progress. */
  lemma TallyBump(prior: Tally, t: Tally, mine: bool, p: Progress, waiting: bool, finished: bool, stuck: bool, any: bool)
    requires (prior.hasPending <==> waiting) && (prior.completed > 0 <==> finished)
    requires (prior.failed > 0 <==> stuck) && (prior.evidences > 0 <==> any)
    requires Settled(prior)
    requires t == if !mine then prior
                  else if p == Finished then prior.(evidences := prior.evidences + 1, completed := prior.completed + 1)
                  else if p == Stuck then prior.(evidences := prior.evidences + 1, failed := prior.failed + 1)
                  else prior.(evidences := prior.evidences + 1, hasPending := true)
    ensures t.hasPending <==> waiting || (mine && p == Waiting)
    ensures t.completed > 0 <==> finished || (mine && p == Finished)
    ensures t.failed > 0 <==> stuck || (mine && p == Stuck)
    ensures t.evidences > 0 <==> any || mine
    ensures Settled(t)
  {
  }

  /** A finished evidence is one with output; the requests do not enter into it. */
  lemma FinishedIffOutput(e: Evidence, id: nat, rs: seq<LlmRequest>, stage: SemanticLevel, cfg: StageConfig, maxAttempts: int)
    ensures ProgressOf(e, id, rs, stage, cfg, maxAttempts) == Finished <==> Content(e, cfg.outputField).Some?
  {
  }

  /** What a stage notice does to its window. */
  datatype Advance = Stay | FailWindow | CompleteWindow | MoveTo(next: SemanticLevel)

  function AdvanceOf(db: WindowDb, windowId: nat, stage: SemanticLevel, maxAttempts: int): Advance
  {
    if stage == L0Raw || windowId >= |db.windows| || Terminal(db.windows[windowId].status) then Stay
    else
      var cfg := StageConfigOf(stage).value;
      var t := TallyOf(db, |db.evidences|, windowId, stage, cfg, maxAttempts);
      if t.evidences == 0 || t.hasPending then Stay
      else if t.completed == 0 && t.failed > 0 then FailWindow
      else if NextStage(stage).None? then CompleteWindow
      else if db.windows[windowId].currentStage != stage then Stay
      else MoveTo(NextStage(stage).value)
  }

  /** The window a stage notice may change: live, and holding this stage's evidences. */
  predicate Live(db: WindowDb, windowId: nat, stage: SemanticLevel)
  {
    stage != L0Raw && windowId < |db.windows| && !Terminal(db.windows[windowId].status)
    && HasEvidence(db, |db.evidences|, windowId)
  }

  /** The stage state at a given progress, over all evidences of the window. */
  predicate AnyAt(db: WindowDb, windowId: nat, stage: SemanticLevel, maxAttempts: int, p: Progress)
    requires stage != L0Raw
  {
    SomeAt(db, |db.evidences|, windowId, stage, StageConfigOf(stage).value, maxAttempts, p)
  }

  /** A window fails a stage exactly when no evidence is going, none finished, and some are out of attempts. */
  lemma AdvanceFailsIff(db: WindowDb, windowId: nat, stage: SemanticLevel, maxAttempts: int)
    ensures AdvanceOf(db, windowId, stage, maxAttempts) == FailWindow <==>
      Live(db, windowId, stage) && !AnyAt(db, windowId, stage, maxAttempts, Waiting)
      && !AnyAt(db, windowId, stage, maxAttempts, Finished) && AnyAt(db, windowId, stage, maxAttempts, Stuck)
  {
    if stage != L0Raw {
      TallyMeaning(db, |db.evidences|, windowId, stage, StageConfigOf(stage).value, maxAttempts);
    }
  }

  /**
   * A window moves to the next stage exactly when it sits at this one, no
   * evidence is going, at least one finished, and a next stage exists.
   */
  lemma AdvanceMovesIff(db: WindowDb, windowId: nat, stage: SemanticLevel, maxAttempts: int, next: SemanticLevel)
    ensures AdvanceOf(db, windowId, stage, maxAttempts) == MoveTo(next) <==>
      Live(db, windowId, stage) && !AnyAt(db, windowId, stage, maxAttempts, Waiting)
      && AnyAt(db, windowId, stage, maxAttempts, Finished)
      && NextStage(stage) == Some(next) && db.windows[windowId].currentStage == stage
  {
    if stage != L0Raw {
      TallyMeaning(db, |db.evidences|, windowId, stage, StageConfigOf(stage).value, maxAttempts);
    }
  }

  /** The last stage completes the window once no evidence is going and at least one finished, wherever the window sits. */
  lemma AdvanceCompletesIff(db: WindowDb, windowId: nat, stage: SemanticLevel, maxAttempts: int)
    ensures AdvanceOf(db, windowId, stage, maxAttempts) == CompleteWindow <==>
      Live(db, windowId, stage) && !AnyAt(db, windowId, stage, maxAttempts, Waiting)
      && AnyAt(db, windowId, stage, maxAttempts, Finished) && stage == L3Abstracted
  {
    if stage != L0Raw {
      TallyMeaning(db, |db.evidences|, windowId, stage, StageConfigOf(stage).value, maxAttempts);
    }
  }

  /** While any evidence of the stage is still going, the window stays as it is. */
  lemma AdvanceWaits(db: WindowDb, windowId: nat, stage: SemanticLevel, maxAttempts: int)
    requires stage != L0Raw && AnyAt(db, windowId, stage, maxAttempts, Waiting)
    ensures AdvanceOf(db, windowId, stage, maxAttempts) == Stay
  {
    TallyMeaning(db, |db.evidences|, windowId, stage, StageConfigOf(stage).value, maxAttempts);
  }

  function SetWindow(db: WindowDb, windowId: nat, status: string, stage: SemanticLevel): WindowDb
    requires windowId < |db.windows|
  {
    db.(windows := db.windows[windowId := db.windows[windowId].(status := status, currentStage := stage)])
  }

  /**
   * `maybeAdvanceWindowStage(windowId, stage)` for a stage read from a key.
   * An unknown stage gets no configuration, and the loop's first use of it
   * throws.
   */
  function MaybeAdvanceSpec(db: WindowDb, windowId: nat, stage: Option<string>, policy: EnginePolicy, prompter: Prompter): Outcome
  {
    if stage == Some("l0_raw") || windowId >= |db.windows| || Terminal(db.windows[windowId].status) then Done(db)
    else if stage.None? || LevelNamed(stage.value).None? then
      if HasEvidence(db, |db.evidences|, windowId) then Threw(db, UndefinedRead) else Done(db)
    else
      var level := LevelNamed(stage.value).value;
      match AdvanceOf(db, windowId, level, policy.maxRequestAttempts)
      case Stay => Done(db)
      case FailWindow => Done(SetWindow(db, windowId, "error", level))
      case CompleteWindow => Done(SetWindow(db, windowId, "completed", level))
      case MoveTo(next) =>
        var moved := db.(windows := db.windows[windowId := db.windows[windowId].(currentStage := next)]);
        match EnqueueSpec(moved, windowId, next, policy, prompter)
        case Threw(_, m) => Threw(db, m)
        case Done(d) => Done(d)
  }

  /** A stage notice never touches evidences, only appends LLM requests, and rolls back when it throws. */
  lemma MaybeAdvanceFrame(db: WindowDb, windowId: nat, stage: Option<string>, policy: EnginePolicy, prompter: Prompter)
    ensures var o := MaybeAdvanceSpec(db, windowId, stage, policy, prompter);
      o.db.evidences == db.evidences && |o.db.windows| == |db.windows|
      && |db.llm.requests| <= |o.db.llm.requests| && o.db.llm.requests[..|db.llm.requests|] == db.llm.requests
      && (o.Threw? ==> o.db == db)
  {
    var o := MaybeAdvanceSpec(db, windowId, stage, policy, prompter);
    if o.Done? && stage != Some("l0_raw") && windowId < |db.windows| && !Terminal(db.windows[windowId].status)
       && stage.Some? && LevelNamed(stage.value).Some? {
      var level := LevelNamed(stage.value).value;
      if AdvanceOf(db, windowId, level, policy.maxRequestAttempts).MoveTo? {
        var next := AdvanceOf(db, windowId, level, policy.maxRequestAttempts).next;
        var moved := db.(windows := db.windows[windowId := db.windows[windowId].(currentStage := next)]);
        EnqueueSpecFrame(moved, windowId, next, policy, prompter);
      }
    }
  }

  /**
   * A repeated notice for a stage the window has already left changes
   * nothing: the next stage is enqueued once.
   */
  lemma MaybeAdvanceOnce(db: WindowDb, windowId: nat, stage: SemanticLevel, policy: EnginePolicy, prompter: Prompter)
    requires AdvanceOf(db, windowId, stage, policy.maxRequestAttempts).MoveTo?
    requires MaybeAdvanceSpec(db, windowId, Some(LevelName(stage)), policy, prompter).Done?
    ensures var d := MaybeAdvanceSpec(db, windowId, Some(LevelName(stage)), policy, prompter).db;
      d.windows[windowId].currentStage == NextStage(stage).value
      && MaybeAdvanceSpec(d, windowId, Some(LevelName(stage)), policy, prompter) == Done(d)
  {
    var max := policy.maxRequestAttempts;
    var next := AdvanceOf(db, windowId, stage, max).next;
    LevelNameRoundTrip(stage);
    AdvanceMovesIff(db, windowId, stage, max, next);
    var moved := db.(windows := db.windows[windowId := db.windows[windowId].(currentStage := next)]);
    EnqueueSpecFrame(moved, windowId, next, policy, prompter);
    var d := MaybeAdvanceSpec(db, windowId, Some(LevelName(stage)), policy, prompter).db;
    assert d == EnqueueSpec(moved, windowId, next, policy, prompter).db;
    assert d.evidences == db.evidences && d.windows == moved.windows;
    var cfg := StageConfigOf(stage).value;
    assert AnyAt(d, windowId, stage, max, Finished) by {
      var i :| 0 <= i < |db.evidences| && db.evidences[i].windowId == windowId
               && ProgressOf(db.evidences[i], i, db.llm.requests, stage, cfg, max) == Finished;
      FinishedIffOutput(db.evidences[i], i, db.llm.requests, stage, cfg, max);
      FinishedIffOutput(d.evidences[i], i, d.llm.requests, stage, cfg, max);
    }
    AdvanceFailsIff(d, windowId, stage, max);
    AdvanceMovesIff(d, windowId, stage, max, next);
    NextStageOrder(stage);
  }

  // ---------------------------------------------------------------------
  // The window service mutations

  /** The message a mutation surfaced, if it threw. */
  function ErrorOf(o: Outcome): Option<string>
  {
    if o.Threw? then Some(o.message) else None
  }

  const L0RawError := "l0_raw is not a processing stage"
  const MissingDocument := "Update on nonexistent document"

  /** The evidence a key's id part names, if it is a row of the table. */
  function LookupEvidence(db: WindowDb, id: Option<string>): (r: Option<nat>)
    ensures r.Some? ==> r.value < |db.evidences| && id == Some(IdText(r.value))
  {
    if id.Some? && IdOf(id.value).Some? && IdOf(id.value).value < |db.evidences| then Some(IdOf(id.value).value) else None
  }

  /**
   * `startWindowOrchestration`: a missing window throws, a finished one is
   * left alone, and any other window is set running at l1 and gets its l1
   * requests.
   */
  function StartSpec(db: WindowDb, windowId: nat, policy: EnginePolicy, prompter: Prompter): Outcome
  {
    if windowId >= |db.windows| then Threw(db, "Window not found")
    else if Terminal(db.windows[windowId].status) then Done(db)
    else
      var started := SetWindow(db, windowId, "running", L1Cleaned);
      match EnqueueSpec(started, windowId, L1Cleaned, policy, prompter)
      case Threw(_, m) => Threw(db, m)
      case Done(d) => Done(d)
  }

  /** A started window runs at l1, with only LLM rows added; a finished window is untouched. */
  lemma StartSpecEffect(db: WindowDb, windowId: nat, policy: EnginePolicy, prompter: Prompter)
    requires windowId < |db.windows|
    ensures Terminal(db.windows[windowId].status) ==> StartSpec(db, windowId, policy, prompter) == Done(db)
    ensures var o := StartSpec(db, windowId, policy, prompter);
      o.Done? && !Terminal(db.windows[windowId].status) ==>
        o.db.windows == db.windows[windowId := Window("running", L1Cleaned, db.windows[windowId].model)]
        && o.db.evidences == db.evidences
  {
    var started := SetWindow(db, windowId, "running", L1Cleaned);
    EnqueueSpecFrame(started, windowId, L1Cleaned, policy, prompter);
  }

  function WithOutput(r: LlmRequest, output: string, inputTokens: Option<int>, outputTokens: Option<int>): LlmRequest
  {
    r.(status := Succeeded, output := Some(output), inputTokens := inputTokens, outputTokens := outputTokens)
  }

  /**
   * `applyRequestResult`: the key names an evidence and a stage; the
   * output lands in that stage's field with the request's id, the request
   * succeeds, and the stage is re-counted.
   */
  function ApplyResultSpec(db: WindowDb, requestId: nat, customKey: string, output: string,
                           inputTokens: Option<int>, outputTokens: Option<int>,
                           policy: EnginePolicy, prompter: Prompter): Outcome
  {
    match ParseRequestKey(customKey)
    case Failure(e) => Threw(db, e)
    case Success(parts) =>
      if parts.stage == Some("l0_raw") then Threw(db, L0RawError)
      else match LookupEvidence(db, parts.id)
        case None => Threw(db, "Evidence not found")
        case Some(eid) =>
          match StageConfigNamed(parts.stage)
          case Failure(e) => Threw(db, e)
          case Success(cfg) =>
            if requestId >= |db.llm.requests| then Threw(db, MissingDocument)
            else
              var e := db.evidences[eid];
              var recorded := db.(evidences := db.evidences[eid := WithResult(e, cfg, output, requestId)],
                                  llm := db.llm.(requests := db.llm.requests[requestId := WithOutput(db.llm.requests[requestId], output, inputTokens, outputTokens)]));
              match MaybeAdvanceSpec(recorded, e.windowId, parts.stage, policy, prompter)
              case Threw(_, m) => Threw(db, m)
              case Done(d) => Done(d)
  }

  /**
   * A result under an evidence's own request key records the output in that
   * stage's field and marks the request done; a throw (only the next stage's
   * enqueue can throw here) leaves the tables unchanged.
   */
  lemma ApplyResultRecords(db: WindowDb, requestId: nat, evidenceId: nat, stage: SemanticLevel, output: string,
                           inputTokens: Option<int>, outputTokens: Option<int>, policy: EnginePolicy, prompter: Prompter)
    requires evidenceId < |db.evidences| && requestId < |db.llm.requests| && stage != L0Raw
    ensures var o := ApplyResultSpec(db, requestId, EvidenceKey(evidenceId, LevelName(stage)), output, inputTokens, outputTokens, policy, prompter);
      (o.Threw? ==> o.db == db)
      && (o.Done? ==>
            |o.db.evidences| == |db.evidences| && |o.db.llm.requests| >= |db.llm.requests|
            && Content(o.db.evidences[evidenceId], StageConfigOf(stage).value.outputField) == Some(output)
            && RequestIdAt(o.db.evidences[evidenceId], StageConfigOf(stage).value.requestIdField) == Some(requestId)
            && o.db.llm.requests[requestId] == WithOutput(db.llm.requests[requestId], output, inputTokens, outputTokens))
  {
    RequestKeyRoundTrip(evidenceId, stage);
    var cfg := StageConfigOf(stage).value;
    var e := db.evidences[evidenceId];
    var recorded := db.(evidences := db.evidences[evidenceId := WithResult(e, cfg, output, requestId)],
                        llm := db.llm.(requests := db.llm.requests[requestId := WithOutput(db.llm.requests[requestId], output, inputTokens, outputTokens)]));
    MaybeAdvanceFrame(recorded, e.windowId, Some(LevelName(stage)), policy, prompter);
    var o := MaybeAdvanceSpec(recorded, e.windowId, Some(LevelName(stage)), policy, prompter);
    assert o.db.llm.requests[requestId] == o.db.llm.requests[..|recorded.llm.requests|][requestId];
  }

  /** Keys that are not evidence keys, and raw-level keys, are refused without a change. */
  lemma ApplyResultRefuses(db: WindowDb, requestId: nat, customKey: string, output: string,
                           inputTokens: Option<int>, outputTokens: Option<int>, policy: EnginePolicy, prompter: Prompter)
    requires ParseRequestKey(customKey).Failure? || ParseRequestKey(customKey).value.stage == Some("l0_raw")
    ensures ApplyResultSpec(db, requestId, customKey, output, inputTokens, outputTokens, policy, prompter).Threw?
    ensures ApplyResultSpec(db, requestId, customKey, output, inputTokens, outputTokens, policy, prompter).db == db
  {
  }

  /** `handleRequestError`: the key's evidence must exist, and its stage is re-counted. */
  function HandleErrorSpec(db: WindowDb, customKey: string, policy: EnginePolicy, prompter: Prompter): Outcome
  {
    match ParseRequestKey(customKey)
    case Failure(e) => Threw(db, e)
    case Success(parts) =>
      match LookupEvidence(db, parts.id)
      case None => Threw(db, "Evidence not found")
      case Some(eid) => MaybeAdvanceSpec(db, db.evidences[eid].windowId, parts.stage, policy, prompter)
  }

  /** An error notice changes no evidence and no existing request; it can only move, fail or complete the window. */
  lemma HandleErrorFrame(db: WindowDb, customKey: string, policy: EnginePolicy, prompter: Prompter)
    ensures var o := HandleErrorSpec(db, customKey, policy, prompter);
      o.db.evidences == db.evidences && |db.llm.requests| <= |o.db.llm.requests|
      && o.db.llm.requests[..|db.llm.requests|] == db.llm.requests
  {
    var parts := ParseRequestKey(customKey);
    if parts.Success? && LookupEvidence(db, parts.value.id).Some? {
      var eid := LookupEvidence(db, parts.value.id).value;
      MaybeAdvanceFrame(db, db.evidences[eid].windowId, parts.value.stage, policy, prompter);
    }
  }

  /** `recordSuccess`: the output and request id land in the stage's fields and the request succeeds, tokens untouched. */
  function RecordSuccessSpec(db: WindowDb, customKey: string, requestId: nat, output: string): Outcome
  {
    match ParseRequestKey(customKey)
    case Failure(e) => Threw(db, e)
    case Success(parts) =>
      if parts.stage == Some("l0_raw") then Threw(db, L0RawError)
      else match StageConfigNamed(parts.stage)
        case Failure(e) => Threw(db, e)
        case Success(cfg) =>
          match LookupEvidence(db, parts.id)
          case None => Threw(db, MissingDocument)
          case Some(eid) =>
            if requestId >= |db.llm.requests| then Threw(db, MissingDocument)
            else
              var r := db.llm.requests[requestId];
              Done(db.(evidences := db.evidences[eid := WithResult(db.evidences[eid], cfg, output, requestId)],
                       llm := db.llm.(requests := db.llm.requests[requestId := r.(status := Succeeded, output := Some(output))])))
  }

  /** Recording a result twice is the same as recording it once. */
  lemma RecordSuccessIdempotent(db: WindowDb, customKey: string, requestId: nat, output: string)
    requires RecordSuccessSpec(db, customKey, requestId, output).Done?
    ensures var d := RecordSuccessSpec(db, customKey, requestId, output).db;
      RecordSuccessSpec(d, customKey, requestId, output) == Done(d)
  {
    var parts := ParseRequestKey(customKey).value;
    var cfg := StageConfigNamed(parts.stage).value;
    var eid := LookupEvidence(db, parts.id).value;
    var e := db.evidences[eid];
    var e1 := WithResult(e, cfg, output, requestId);
    assert WithResult(e1, cfg, output, requestId) == e1;
  }

  /**
   * The evidence retry: `requeueRequest` through the registry (provider
   * "openai") when `viaRegistry`, otherwise `requeueWindowRequest`
   * (provider of the request's model).  The request moves to a new job
   * under the evidence's window and stage and leaves its batch.
   */
  function RequeueSpec(db: WindowDb, requestId: nat, viaRegistry: bool): Outcome
  {
    if requestId >= |db.llm.requests| then Threw(db, "Request not found")
    else
      var r := db.llm.requests[requestId];
      if viaRegistry && ResolveRequeueHandler(r.customKey).None? then
        Threw(db, "Unsupported target type for retry: " + r.customKey)
      else match ParseRequestKey(r.customKey)
        case Failure(e) => Threw(db, e)
        case Success(parts) =>
          match LookupEvidence(db, parts.id)
          case None => Threw(db, "Evidence not found for retry: " + PartText(parts.id))
          case Some(eid) =>
            var provider := if viaRegistry then Success("openai") else Providers.ProviderForModel(r.model);
            if provider.Failure? then Threw(db, provider.error)
            else
              var job := NewJob(provider.value, r.model, WindowKey(db.evidences[eid].windowId, PartText(parts.stage)));
              Done(db.(llm := db.llm.(jobs := db.llm.jobs + [job],
                                      requests := db.llm.requests[requestId := r.(jobId := Some(|db.llm.jobs|), batchId := None)])))
  }

  /**
   * Retrying an evidence request adds exactly one queued job keyed by the
   * evidence's window and stage, points the request at it and out of its
   * batch, and changes nothing else.  The two entry points agree.
   */
  lemma RequeueSpecEffect(db: WindowDb, requestId: nat, evidenceId: nat, stage: SemanticLevel, viaRegistry: bool)
    requires requestId < |db.llm.requests| && evidenceId < |db.evidences|
    requires db.llm.requests[requestId].customKey == EvidenceKey(evidenceId, LevelName(stage))
    requires Providers.ModelById(db.llm.requests[requestId].model).Success?
    ensures var o := RequeueSpec(db, requestId, viaRegistry);
      o.Done? && o.db.windows == db.windows && o.db.evidences == db.evidences && o.db.llm.batches == db.llm.batches
      && o.db.llm.jobs == db.llm.jobs + [NewJob("openai", db.llm.requests[requestId].model,
                                               WindowKey(db.evidences[evidenceId].windowId, LevelName(stage)))]
      && o.db.llm.requests == db.llm.requests[requestId := db.llm.requests[requestId].(jobId := Some(|db.llm.jobs|), batchId := None)]
    ensures RequeueSpec(db, requestId, true) == RequeueSpec(db, requestId, false)
  {
    RequestKeyRoundTrip(evidenceId, stage);
    IdTextNoColon(evidenceId);
    LevelNameRoundTrip(stage);
    RequeueHandlerOfMadeKey("evidence", IdText(evidenceId), LevelName(stage));
    Providers.EveryModelIsOpenAI(db.llm.requests[requestId].model);
  }

  /** Only evidence keys can be retried through the registry; anything else throws, unchanged. */
  lemma RequeueRefusesOtherKeys(db: WindowDb, requestId: nat)
    requires requestId < |db.llm.requests| && ResolveRequeueHandler(db.llm.requests[requestId].customKey).None?
    ensures RequeueSpec(db, requestId, true) == Threw(db, "Unsupported target type for retry: " + db.llm.requests[requestId].customKey)
  {
  }

  /** A result or error notice only appends requests, keeps the evidence table's size, and rolls back when it throws. */
  lemma ApplyResultFrame(db: WindowDb, requestId: nat, customKey: string, output: string,
                         inputTokens: Option<int>, outputTokens: Option<int>, policy: EnginePolicy, prompter: Prompter)
    ensures var o := ApplyResultSpec(db, requestId, customKey, output, inputTokens, outputTokens, policy, prompter);
      (o.Threw? ==> o.db == db) && |o.db.llm.requests| >= |db.llm.requests| && |o.db.evidences| == |db.evidences|
  {
    var parts := ParseRequestKey(customKey);
    if parts.Success? && parts.value.stage != Some("l0_raw") && LookupEvidence(db, parts.value.id).Some?
       && StageConfigNamed(parts.value.stage).Success? && requestId < |db.llm.requests| {
      var eid := LookupEvidence(db, parts.value.id).value;
      var cfg := StageConfigNamed(parts.value.stage).value;
      var e := db.evidences[eid];
      var recorded := db.(evidences := db.evidences[eid := WithResult(e, cfg, output, requestId)],
                          llm := db.llm.(requests := db.llm.requests[requestId := WithOutput(db.llm.requests[requestId], output, inputTokens, outputTokens)]));
      MaybeAdvanceFrame(recorded, e.windowId, parts.value.stage, policy, prompter);
    }
  }

  // ---------------------------------------------------------------------
  // Batch results and job runs (`llm_batch_service.ts`, `llm_job_service.ts`)
  //
  // These run inside actions: each mutation they call commits on its own,
  // so a throw stops the loop but keeps what the earlier mutations wrote.

  /** A request document as the action loaded it: its id and its row at that time. */
  datatype RequestDoc = RequestDoc(id: nat, row: LlmRequest)

  predicate DocsIn(docs: seq<RequestDoc>, db: WindowDb)
  {
    forall k :: 0 <= k < |docs| ==> docs[k].id < |db.llm.requests|
  }

  datatype ProviderOutput = ProviderOutput(assistantOutput: string, inputTokens: Option<int>, outputTokens: Option<int>)

  /** One row of a provider's batch response; `completed` is the "completed" status. */
  datatype BatchResult = BatchResult(customKey: string, completed: bool, output: Option<ProviderOutput>, error: Option<string>)

  /** `new Map(requests.map(req => [req.custom_key, req])).get(key)`: the last document under the key wins. */
  function LastWithKey(docs: seq<RequestDoc>, key: string): (k: Option<nat>)
    ensures k.Some? ==> k.value < |docs| && docs[k.value].row.customKey == key
                        && forall j :: k.value < j < |docs| ==> docs[j].row.customKey != key
    ensures k.None? ==> forall j :: 0 <= j < |docs| ==> docs[j].row.customKey != key
  {
    if |docs| == 0 then None
    else if docs[|docs| - 1].row.customKey == key then Some(|docs| - 1)
    else LastWithKey(docs[..|docs| - 1], key)
  }

  /** The loop state of `applyBatchResults`: tables, token totals, and the message that stopped it. */
  datatype BatchRun = BatchRun(db: WindowDb, totalInput: int, totalOutput: int, error: Option<string>)

  function Patched(db: WindowDb, id: nat, r: LlmRequest): WindowDb
    requires id < |db.llm.requests|
  {
    db.(llm := db.llm.(requests := db.llm.requests[id := r]))
  }

  /**
   * One result row, once its request is found: a completed row with
   * output is applied through `applyRequestResult` and its tokens counted;
   * anything else costs the request an attempt (counted from the loaded
   * document) and either retries it on a job or fails it.
   */
  function ResultForRequest(s: BatchRun, req: RequestDoc, row: BatchResult, nextAttemptAt: int,
                            policy: EnginePolicy, prompter: Prompter): (r: BatchRun)
    requires req.id < |s.db.llm.requests|
    ensures |r.db.llm.requests| >= |s.db.llm.requests|
  {
    if row.completed && row.output.Some? then
      var out := row.output.value;
      var counted := s.(totalInput := s.totalInput + out.inputTokens.GetOr(0),
                        totalOutput := s.totalOutput + out.outputTokens.GetOr(0));
      ApplyResultFrame(s.db, req.id, req.row.customKey, out.assistantOutput, out.inputTokens, out.outputTokens, policy, prompter);
      match ApplyResultSpec(s.db, req.id, req.row.customKey, out.assistantOutput, out.inputTokens, out.outputTokens, policy, prompter)
      case Threw(_, m) => counted.(error := Some(m))
      case Done(d) => counted.(db := d)
    else
      var attempts := req.row.attempts + 1;
      var message := row.error.GetOr("provider_error");
      var current := s.db.llm.requests[req.id];
      if attempts < policy.maxRequestAttempts then
        var retried := Patched(s.db, req.id, current.(status := Pending, attempts := attempts, lastError := Some(message),
                                                       nextAttemptAt := Some(nextAttemptAt)));
        match RequeueSpec(retried, req.id, true)
        case Threw(_, m) => s.(db := retried, error := Some(m))
        case Done(d) => s.(db := d)
      else
        s.(db := Patched(s.db, req.id, current.(status := Errored, attempts := attempts, lastError := Some(message))))
  }

  /** One result row: its request is the last loaded document under its key, and an unknown key is skipped. */
  function BatchResultStep(s: BatchRun, docs: seq<RequestDoc>, row: BatchResult, nextAttemptAt: int,
                           policy: EnginePolicy, prompter: Prompter): (r: BatchRun)
    requires DocsIn(docs, s.db)
    ensures |r.db.llm.requests| >= |s.db.llm.requests|
  {
    match LastWithKey(docs, row.customKey)
    case None => s
    case Some(k) => ResultForRequest(s, docs[k], row, nextAttemptAt, policy, prompter)
  }

  /** `applyBatchResults` over the first result rows, stopping at the first throw. */
  function ApplyBatchResultsSpec(db: WindowDb, docs: seq<RequestDoc>, results: seq<BatchResult>, nextAttemptAt: int,
                                 policy: EnginePolicy, prompter: Prompter): (r: BatchRun)
    requires DocsIn(docs, db)
    ensures |r.db.llm.requests| >= |db.llm.requests|
  {
    if |results| == 0 then BatchRun(db, 0, 0, None)
    else
      var s := ApplyBatchResultsSpec(db, docs, results[..|results| - 1], nextAttemptAt, policy, prompter);
      if s.error.Some? then s else BatchResultStep(s, docs, results[|results| - 1], nextAttemptAt, policy, prompter)
  }

  /** A result naming none of the batch's requests changes nothing. */
  lemma UnknownResultIgnored(s: BatchRun, docs: seq<RequestDoc>, row: BatchResult, nextAttemptAt: int,
                             policy: EnginePolicy, prompter: Prompter)
    requires DocsIn(docs, s.db)
    requires forall k :: 0 <= k < |docs| ==> docs[k].row.customKey != row.customKey
    ensures BatchResultStep(s, docs, row, nextAttemptAt, policy, prompter) == s
  {
  }

  /** When several loaded documents share the result's key, the last of them is the one updated. */
  lemma KnownResultUsesLast(s: BatchRun, docs: seq<RequestDoc>, row: BatchResult, nextAttemptAt: int,
                            policy: EnginePolicy, prompter: Prompter, k: nat)
    requires DocsIn(docs, s.db) && k < |docs| && docs[k].row.customKey == row.customKey
    requires forall j :: k < j < |docs| ==> docs[j].row.customKey != row.customKey
    ensures BatchResultStep(s, docs, row, nextAttemptAt, policy, prompter) == ResultForRequest(s, docs[k], row, nextAttemptAt, policy, prompter)
  {
    LastWithKeyFinds(docs, row.customKey, k);
  }

  /** The last document under a key is the one the lookup finds. */
  lemma {:induction false} LastWithKeyFinds(docs: seq<RequestDoc>, key: string, k: nat)
    requires k < |docs| && docs[k].row.customKey == key
    requires forall j :: k < j < |docs| ==> docs[j].row.customKey != key
    ensures LastWithKey(docs, key) == Some(k)
  {
    if k < |docs| - 1 {
      var prefix := docs[..|docs| - 1];
      assert prefix[k] == docs[k];
      LastWithKeyFinds(prefix, key, k);
    }
  }

  /** With token counts that are never negative, the totals are never negative either. */
  lemma {:induction false} BatchTotalsNonNegative(db: WindowDb, docs: seq<RequestDoc>, results: seq<BatchResult>,
                                                  nextAttemptAt: int, policy: EnginePolicy, prompter: Prompter)
    requires DocsIn(docs, db)
    requires forall k :: 0 <= k < |results| && results[k].output.Some? ==>
      results[k].output.value.inputTokens.GetOr(0) >= 0 && results[k].output.value.outputTokens.GetOr(0) >= 0
    ensures var r := ApplyBatchResultsSpec(db, docs, results, nextAttemptAt, policy, prompter);
      r.totalInput >= 0 && r.totalOutput >= 0
  {
    if |results| > 0 {
      var prefix := results[..|results| - 1];
      assert forall k :: 0 <= k < |prefix| ==> prefix[k] == results[k];
      BatchTotalsNonNegative(db, docs, prefix, nextAttemptAt, policy, prompter);
    }
  }

  /** A throw stops `applyBatchResults`: the rows after it are never applied. */
  lemma {:induction false} BatchErrorSticks(db: WindowDb, docs: seq<RequestDoc>, results: seq<BatchResult>, i: nat,
                                            nextAttemptAt: int, policy: EnginePolicy, prompter: Prompter)
    requires DocsIn(docs, db) && i <= |results|
    requires ApplyBatchResultsSpec(db, docs, results[..i], nextAttemptAt, policy, prompter).error.Some?
    ensures ApplyBatchResultsSpec(db, docs, results, nextAttemptAt, policy, prompter)
         == ApplyBatchResultsSpec(db, docs, results[..i], nextAttemptAt, policy, prompter)
    decreases |results|
  {
    if i == |results| {
      assert results[..i] == results;
    } else {
      var prefix := results[..|results| - 1];
      assert prefix[..i] == results[..i];
      BatchErrorSticks(db, docs, prefix, i, nextAttemptAt, policy, prompter);
    }
  }

  /**
   * A failed row with attempts left puts its request back to pending with
   * one more attempt than its document had, and moves it onto a new job of
   * its window.
   */
  lemma FailedResultRetries(s: BatchRun, req: RequestDoc, row: BatchResult, nextAttemptAt: int,
                            policy: EnginePolicy, prompter: Prompter, evidenceId: nat, stage: SemanticLevel)
    requires req.id < |s.db.llm.requests| && s.error.None?
    requires !(row.completed && row.output.Some?)
    requires req.row.attempts + 1 < policy.maxRequestAttempts
    requires evidenceId < |s.db.evidences|
    requires s.db.llm.requests[req.id].customKey == EvidenceKey(evidenceId, LevelName(stage))
    ensures var r := ResultForRequest(s, req, row, nextAttemptAt, policy, prompter);
      var q := r.db.llm.requests[req.id];
      r.error.None? && q.status == Pending && q.attempts == req.row.attempts + 1
      && q.lastError == Some(row.error.GetOr("provider_error")) && q.nextAttemptAt == Some(nextAttemptAt)
      && q.batchId.None? && q.jobId == Some(|s.db.llm.jobs|)
      && r.db.llm.jobs == s.db.llm.jobs + [NewJob("openai", q.model, WindowKey(s.db.evidences[evidenceId].windowId, LevelName(stage)))]
  {
    RequestKeyRoundTrip(evidenceId, stage);
    IdTextNoColon(evidenceId);
    LevelNameRoundTrip(stage);
    RequeueHandlerOfMadeKey("evidence", IdText(evidenceId), LevelName(stage));
    var current := s.db.llm.requests[req.id];
    var retried := Patched(s.db, req.id, current.(status := Pending, attempts := req.row.attempts + 1,
                                                   lastError := Some(row.error.GetOr("provider_error")),
                                                   nextAttemptAt := Some(nextAttemptAt)));
    assert ResultForRequest(s, req, row, nextAttemptAt, policy, prompter) == s.(db := RequeueSpec(retried, req.id, true).db);
  }

  /** A failed row without attempts left fails its request with that attempt count and changes nothing else. */
  lemma FailedResultGivesUp(s: BatchRun, req: RequestDoc, row: BatchResult, nextAttemptAt: int,
                            policy: EnginePolicy, prompter: Prompter)
    requires req.id < |s.db.llm.requests| && s.error.None?
    requires !(row.completed && row.output.Some?)
    requires req.row.attempts + 1 >= policy.maxRequestAttempts
    ensures var r := ResultForRequest(s, req, row, nextAttemptAt, policy, prompter);
      var q := r.db.llm.requests[req.id];
      r.error.None? && q.status == Errored && q.attempts == req.row.attempts + 1
      && q.lastError == Some(row.error.GetOr("provider_error"))
      && r.db.windows == s.db.windows && r.db.evidences == s.db.evidences
      && r.db.llm.batches == s.db.llm.batches && r.db.llm.jobs == s.db.llm.jobs
      && (forall j :: 0 <= j < |s.db.llm.requests| && j != req.id ==> r.db.llm.requests[j] == s.db.llm.requests[j])
  {
    var current := s.db.llm.requests[req.id];
    var failed := current.(status := Errored, attempts := req.row.attempts + 1, lastError := Some(row.error.GetOr("provider_error")));
    assert ResultForRequest(s, req, row, nextAttemptAt, policy, prompter) == s.(db := Patched(s.db, req.id, failed));
  }

  /** A completed row with output is applied as `applyRequestResult` applies it, and its tokens are counted. */
  lemma CompletedResultApplied(s: BatchRun, req: RequestDoc, row: BatchResult, nextAttemptAt: int,
                               policy: EnginePolicy, prompter: Prompter)
    requires req.id < |s.db.llm.requests| && s.error.None?
    requires row.completed && row.output.Some?
    ensures var r := ResultForRequest(s, req, row, nextAttemptAt, policy, prompter);
      var out := row.output.value;
      var o := ApplyResultSpec(s.db, req.id, req.row.customKey, out.assistantOutput, out.inputTokens, out.outputTokens, policy, prompter);
      r.db == o.db && r.error == ErrorOf(o)
      && r.totalInput == s.totalInput + out.inputTokens.GetOr(0) && r.totalOutput == s.totalOutput + out.outputTokens.GetOr(0)
  {
    var out := row.output.value;
    var o := ApplyResultSpec(s.db, req.id, req.row.customKey, out.assistantOutput, out.inputTokens, out.outputTokens, policy, prompter);
    var counted := s.(totalInput := s.totalInput + out.inputTokens.GetOr(0), totalOutput := s.totalOutput + out.outputTokens.GetOr(0));
    if o.Threw? {
      assert ResultForRequest(s, req, row, nextAttemptAt, policy, prompter) == counted.(error := Some(o.message));
    } else {
      assert ResultForRequest(s, req, row, nextAttemptAt, policy, prompter) == counted.(db := o.db);
    }
  }

  /** The outcome the provider and the limiter give one job request (the limiter says ok when the model has no buckets). */
  datatype JobCall = JobCall(due: bool, limit: LimitVerdict, response: Result<ProviderOutput>)

  /** The loop state of `runJobRequests`. */
  datatype JobRun = JobRun(db: WindowDb, anyPending: bool, anyErrors: bool)

  /**
   * One request of a job: settled requests are skipped; one not yet due, or
   * refused by the limiter, waits; otherwise the provider's answer is
   * applied, and a provider failure or a throw while applying costs an
   * attempt.
   */
  function JobStep(s: JobRun, doc: RequestDoc, call: JobCall, nextAttemptAt: int,
                   policy: EnginePolicy, prompter: Prompter): (r: JobRun)
    requires doc.id < |s.db.llm.requests|
    ensures |r.db.llm.requests| >= |s.db.llm.requests|
    ensures s.anyPending ==> r.anyPending
    ensures s.anyErrors ==> r.anyErrors
  {
    if doc.row.status != Pending then s
    else if !call.due then s.(anyPending := true)
    else if call.limit.RetryAfter? then
      s.(db := Patched(s.db, doc.id, s.db.llm.requests[doc.id].(nextAttemptAt := Some(call.limit.at))), anyPending := true)
    else
      var attempt := match call.response
        case Failure(m) => Threw(s.db, m)
        case Success(out) =>
          ApplyResultSpec(s.db, doc.id, doc.row.customKey, out.assistantOutput, out.inputTokens, out.outputTokens, policy, prompter);
      if attempt.Done? then
        ApplyResultFrame(s.db, doc.id, doc.row.customKey, call.response.value.assistantOutput,
                         call.response.value.inputTokens, call.response.value.outputTokens, policy, prompter);
        s.(db := attempt.db)
      else
        var (q, retried) := ApplyRequestErrorSpec(s.db.llm.requests[doc.id], attempt.message, doc.row.attempts + 1,
                                                   nextAttemptAt, policy.maxRequestAttempts);
        if retried then s.(db := Patched(s.db, doc.id, q), anyPending := true)
        else s.(db := Patched(s.db, doc.id, q), anyErrors := true)
  }

  /** `runJobRequests` over the first n documents. */
  function RunJobsSpec(db: WindowDb, docs: seq<RequestDoc>, calls: seq<JobCall>, n: nat, nextAttemptAt: int,
                       policy: EnginePolicy, prompter: Prompter): (r: JobRun)
    requires n <= |docs| && n <= |calls| && DocsIn(docs, db)
    ensures |r.db.llm.requests| >= |db.llm.requests|
  {
    if n == 0 then JobRun(db, false, false)
    else
      var s := RunJobsSpec(db, docs, calls, n - 1, nextAttemptAt, policy, prompter);
      JobStep(s, docs[n - 1], calls[n - 1], nextAttemptAt, policy, prompter)
  }

  /** Settled requests are skipped; requests not due or refused by the limiter are never sent and leave work pending. */
  lemma JobStepWaits(s: JobRun, doc: RequestDoc, call: JobCall, nextAttemptAt: int, policy: EnginePolicy, prompter: Prompter)
    requires doc.id < |s.db.llm.requests|
    ensures doc.row.status != Pending ==> JobStep(s, doc, call, nextAttemptAt, policy, prompter) == s
    ensures doc.row.status == Pending && !call.due ==> JobStep(s, doc, call, nextAttemptAt, policy, prompter) == s.(anyPending := true)
    ensures doc.row.status == Pending && call.due && call.limit.RetryAfter? ==>
      var r := JobStep(s, doc, call, nextAttemptAt, policy, prompter);
      r.anyPending && r.anyErrors == s.anyErrors
      && r.db == Patched(s.db, doc.id, s.db.llm.requests[doc.id].(nextAttemptAt := Some(call.limit.at)))
  {
  }

  /**
   * A provider failure retries the request exactly when attempts remain,
   * raising `anyPending`, and otherwise fails it, raising `anyErrors`.
   */
  lemma JobStepFailure(s: JobRun, doc: RequestDoc, call: JobCall, nextAttemptAt: int, policy: EnginePolicy, prompter: Prompter)
    requires doc.id < |s.db.llm.requests|
    requires doc.row.status == Pending && call.due && call.limit.LimitOk? && call.response.Failure?
    ensures var r := JobStep(s, doc, call, nextAttemptAt, policy, prompter);
      var q := r.db.llm.requests[doc.id];
      q.attempts == doc.row.attempts + 1 && q.lastError == Some(call.response.error)
      && (doc.row.attempts + 1 < policy.maxRequestAttempts ==>
            q.status == Pending && q.nextAttemptAt == Some(nextAttemptAt) && r.anyPending && r.anyErrors == s.anyErrors)
      && (doc.row.attempts + 1 >= policy.maxRequestAttempts ==>
            q.status == Errored && r.anyErrors && r.anyPending == s.anyPending)
      && r.db.windows == s.db.windows && r.db.evidences == s.db.evidences
  {
    ApplyRequestErrorRetriesIff(s.db.llm.requests[doc.id], call.response.error, doc.row.attempts + 1,
                                nextAttemptAt, policy.maxRequestAttempts);
  }

  /** A provider answer is applied as `applyRequestResult` applies it; the flags stay as they were. */
  lemma JobStepSuccess(s: JobRun, doc: RequestDoc, call: JobCall, nextAttemptAt: int, policy: EnginePolicy, prompter: Prompter)
    requires doc.id < |s.db.llm.requests|
    requires doc.row.status == Pending && call.due && call.limit.LimitOk? && call.response.Success?
    requires ApplyResultSpec(s.db, doc.id, doc.row.customKey, call.response.value.assistantOutput,
                             call.response.value.inputTokens, call.response.value.outputTokens, policy, prompter).Done?
    ensures JobStep(s, doc, call, nextAttemptAt, policy, prompter)
         == s.(db := ApplyResultSpec(s.db, doc.id, doc.row.customKey, call.response.value.assistantOutput,
                                     call.response.value.inputTokens, call.response.value.outputTokens, policy, prompter).db)
  {
  }

  /** Once raised, `anyPending` and `anyErrors` stay raised for the rest of the run. */
  lemma {:induction false} RunJobsFlagsStick(db: WindowDb, docs: seq<RequestDoc>, calls: seq<JobCall>, n: nat, m: nat,
                                             nextAttemptAt: int, policy: EnginePolicy, prompter: Prompter)
    requires m <= n <= |docs| && n <= |calls| && DocsIn(docs, db)
    ensures RunJobsSpec(db, docs, calls, m, nextAttemptAt, policy, prompter).anyPending ==>
            RunJobsSpec(db, docs, calls, n, nextAttemptAt, policy, prompter).anyPending
    ensures RunJobsSpec(db, docs, calls, m, nextAttemptAt, policy, prompter).anyErrors ==>
            RunJobsSpec(db, docs, calls, n, nextAttemptAt, policy, prompter).anyErrors
    decreases n - m
  {
    if m < n {
      RunJobsFlagsStick(db, docs, calls, n - 1, m, nextAttemptAt, policy, prompter);
    }
  }

  // ---------------------------------------------------------------------
  // A terminal job failure and the window

  /**
   * `runJobRequests` as the engine's tests expect it: a request that a
   * provider failure leaves without attempts (`applyRequestError` returning
   * false) is also reported to the window service with `handleRequestError`,
   * so that the stage is re-counted and a window whose evidences all failed
   * is errored.  A throw of that notice rolls back the notice alone.
   * Everything else is `JobStep`.
   */
  function JobStepNotifying(s: JobRun, doc: RequestDoc, call: JobCall, nextAttemptAt: int,
                            policy: EnginePolicy, prompter: Prompter): (r: JobRun)
    requires doc.id < |s.db.llm.requests|
    ensures |r.db.llm.requests| >= |s.db.llm.requests|
    ensures s.anyPending ==> r.anyPending
    ensures s.anyErrors ==> r.anyErrors
  {
    if TerminalFailure(s, doc, call, policy) then
      var d := GivenUp(s, doc, call);
      HandleErrorFrame(d, doc.row.customKey, policy, prompter);
      s.(db := HandleErrorSpec(d, doc.row.customKey, policy, prompter).db, anyErrors := true)
    else JobStep(s, doc, call, nextAttemptAt, policy, prompter)
  }

  /** The branch of `JobStep` in which the provider failed and no attempt is left. */
  predicate TerminalFailure(s: JobRun, doc: RequestDoc, call: JobCall, policy: EnginePolicy)
  {
    doc.row.status == Pending && call.due && call.limit.LimitOk? && call.response.Failure?
    && doc.row.attempts + 1 >= policy.maxRequestAttempts
  }

  /** The tables once `applyRequestError` has failed the request for good. */
  function GivenUp(s: JobRun, doc: RequestDoc, call: JobCall): WindowDb
    requires doc.id < |s.db.llm.requests| && call.response.Failure?
  {
    Patched(s.db, doc.id, s.db.llm.requests[doc.id].(status := Errored, attempts := doc.row.attempts + 1,
                                                       lastError := Some(call.response.error)))
  }

  /** In that branch the step as written fails the request, raises `anyErrors`, and does nothing else. */
  lemma TerminalFailureStep(s: JobRun, doc: RequestDoc, call: JobCall, nextAttemptAt: int, policy: EnginePolicy, prompter: Prompter)
    requires doc.id < |s.db.llm.requests| && TerminalFailure(s, doc, call, policy)
    ensures JobStep(s, doc, call, nextAttemptAt, policy, prompter) == s.(db := GivenUp(s, doc, call), anyErrors := true)
  {
  }

  /** The corrected `runJobRequests` over the first n documents. */
  function RunJobsNotifying(db: WindowDb, docs: seq<RequestDoc>, calls: seq<JobCall>, n: nat, nextAttemptAt: int,
                            policy: EnginePolicy, prompter: Prompter): (r: JobRun)
    requires n <= |docs| && n <= |calls| && DocsIn(docs, db)
    ensures |r.db.llm.requests| >= |db.llm.requests|
  {
    if n == 0 then JobRun(db, false, false)
    else
      var s := RunJobsNotifying(db, docs, calls, n - 1, nextAttemptAt, policy, prompter);
      JobStepNotifying(s, docs[n - 1], calls[n - 1], nextAttemptAt, policy, prompter)
  }

  /** Apart from a terminal failure the corrected step is the step as written, and the flags always agree. */
  lemma NotifyingAgrees(s: JobRun, doc: RequestDoc, call: JobCall, nextAttemptAt: int, policy: EnginePolicy, prompter: Prompter)
    requires doc.id < |s.db.llm.requests|
    ensures !TerminalFailure(s, doc, call, policy) ==>
              JobStepNotifying(s, doc, call, nextAttemptAt, policy, prompter) == JobStep(s, doc, call, nextAttemptAt, policy, prompter)
    ensures JobStepNotifying(s, doc, call, nextAttemptAt, policy, prompter).anyPending
            == JobStep(s, doc, call, nextAttemptAt, policy, prompter).anyPending
    ensures JobStepNotifying(s, doc, call, nextAttemptAt, policy, prompter).anyErrors
            == JobStep(s, doc, call, nextAttemptAt, policy, prompter).anyErrors
  {
    if TerminalFailure(s, doc, call, policy) {
      TerminalFailureStep(s, doc, call, nextAttemptAt, policy, prompter);
    }
  }

  /** A stage notice that finds the stage failed errors the window at that stage. */
  lemma NoticeOfFailedStage(d: WindowDb, w: nat, stage: SemanticLevel, policy: EnginePolicy, prompter: Prompter)
    requires AdvanceOf(d, w, stage, policy.maxRequestAttempts) == FailWindow
    ensures w < |d.windows|
    ensures MaybeAdvanceSpec(d, w, Some(LevelName(stage)), policy, prompter) == Done(SetWindow(d, w, "error", stage))
  {
    LevelNameRoundTrip(stage);
  }

  /** An error notice for a stage in which no evidence of a live window is finished or going errors the window at that stage. */
  lemma ErrorNoticeFailsWindow(d: WindowDb, eid: nat, stage: SemanticLevel, policy: EnginePolicy, prompter: Prompter)
    requires eid < |d.evidences|
    requires var w := d.evidences[eid].windowId;
             Live(d, w, stage) && !AnyAt(d, w, stage, policy.maxRequestAttempts, Waiting)
             && !AnyAt(d, w, stage, policy.maxRequestAttempts, Finished)
    ensures d.evidences[eid].windowId < |d.windows|
    ensures HandleErrorSpec(d, EvidenceKey(eid, LevelName(stage)), policy, prompter)
         == Done(SetWindow(d, d.evidences[eid].windowId, "error", stage))
  {
    var max := policy.maxRequestAttempts;
    var w := d.evidences[eid].windowId;
    RequestKeyRoundTrip(eid, stage);
    assert LookupEvidence(d, Some(IdText(eid))) == Some(eid);
    assert AnyAt(d, w, stage, max, Stuck) by {
      var i :| 0 <= i < |d.evidences| && d.evidences[i].windowId == w;
      assert ProgressOf(d.evidences[i], i, d.llm.requests, stage, StageConfigOf(stage).value, max) == Stuck;
    }
    AdvanceFailsIff(d, w, stage, max);
    NoticeOfFailedStage(d, w, stage, policy, prompter);
    assert HandleErrorSpec(d, EvidenceKey(eid, LevelName(stage)), policy, prompter)
        == MaybeAdvanceSpec(d, w, Some(LevelName(stage)), policy, prompter);
  }

  /**
   * The last request of a window's stage failing for good: the step as
   * written fails the request and leaves the window as it was (live, so
   * not errored), while the corrected step also errors the window at that
   * stage, given that after this failure no evidence of the stage is
   * finished or still going.
   */
  lemma TerminalFailureErrorsWindow(s: JobRun, doc: RequestDoc, call: JobCall, nextAttemptAt: int,
                                    policy: EnginePolicy, prompter: Prompter, eid: nat, stage: SemanticLevel)
    requires doc.id < |s.db.llm.requests| && TerminalFailure(s, doc, call, policy)
    requires eid < |s.db.evidences| && doc.row.customKey == EvidenceKey(eid, LevelName(stage))
    requires var d := GivenUp(s, doc, call);
             var w := s.db.evidences[eid].windowId;
             Live(d, w, stage) && !AnyAt(d, w, stage, policy.maxRequestAttempts, Waiting)
             && !AnyAt(d, w, stage, policy.maxRequestAttempts, Finished)
    ensures s.db.evidences[eid].windowId < |s.db.windows|
    ensures s.db.windows[s.db.evidences[eid].windowId].status != "error"
    ensures JobStep(s, doc, call, nextAttemptAt, policy, prompter) == s.(db := GivenUp(s, doc, call), anyErrors := true)
    ensures JobStepNotifying(s, doc, call, nextAttemptAt, policy, prompter)
         == s.(db := SetWindow(GivenUp(s, doc, call), s.db.evidences[eid].windowId, "error", stage), anyErrors := true)
  {
    TerminalFailureStep(s, doc, call, nextAttemptAt, policy, prompter);
    ErrorNoticeFailsWindow(GivenUp(s, doc, call), eid, stage, policy, prompter);
  }
}
