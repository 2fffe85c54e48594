/**
 * The run pipeline (`run_orchestrator.ts` and `run_service.ts`): each
 * sample of a run goes through four stages, rubric generation, rubric
 * critique, scoring and score critique, each stage's output recorded on
 * the sample by id.  The orchestrator lists a stage's open samples and
 * enqueues one LLM request per sample; the service records each result,
 * re-counts the stage and moves the run on.  Mutations are functions from
 * the tables to an `Outcome`; a throw rolls the mutation back.
 */
module Runs {
  import opened Wrappers
  import opened JsArrays
  import opened JsStrings
  import opened Documents
  import opened CustomKeys
  import opened LlmCalls
  import opened LabelRandomization
  import opened RunStrategies
  import RubricParsers
  import ScoringParsers
  import RunPrompts
  import Windows
  import Providers

  // ---------------------------------------------------------------------
  // Stages

  datatype RunStage = RubricGen | RubricCritic | ScoreGen | ScoreCritic

  function StageName(s: RunStage): (t: string)
    ensures ':' !in t
  {
    match s
    case RubricGen => "rubric_gen"
    case RubricCritic => "rubric_critic"
    case ScoreGen => "score_gen"
    case ScoreCritic => "score_critic"
  }

  /** The stage a text names, if it is one of the four. */
  function StageNamed(t: string): (s: Option<RunStage>)
    ensures s.Some? ==> StageName(s.value) == t
  {
    if t == "rubric_gen" then Some(RubricGen)
    else if t == "rubric_critic" then Some(RubricCritic)
    else if t == "score_gen" then Some(ScoreGen)
    else if t == "score_critic" then Some(ScoreCritic)
    else None
  }

  lemma StageNameRoundTrip(s: RunStage)
    ensures StageNamed(StageName(s)) == Some(s)
  {
  }

  /** `STAGE_ORDER`. */
  const StageOrder: seq<RunStage> := [RubricGen, RubricCritic, ScoreGen, ScoreCritic]

  /** `STAGE_ORDER.indexOf(stage)`: every stage is listed once. */
  function IndexOfStage(s: RunStage): (k: nat)
    ensures k < |StageOrder| && StageOrder[k] == s
  {
    match s
    case RubricGen => 0
    case RubricCritic => 1
    case ScoreGen => 2
    case ScoreCritic => 3
  }

  /** `nextStageFor`: the stage after this one in `STAGE_ORDER`, `null` after the last. */
  function NextRunStage(s: RunStage): Option<RunStage>
  {
    var k := IndexOfStage(s);
    if k + 1 < |StageOrder| then Some(StageOrder[k + 1]) else None
  }

  /** `nextStageFor` on a stage read from a key: a text that is no stage has index -1 and no next stage. */
  function NextStageOfText(t: string): Option<RunStage>
  {
    match StageNamed(t)
    case None => None
    case Some(s) => NextRunStage(s)
  }

  /** The chain rubric_gen, rubric_critic, score_gen, score_critic, then nothing. */
  lemma RunStagesChain()
    ensures NextRunStage(RubricGen) == Some(RubricCritic)
    ensures NextRunStage(RubricCritic) == Some(ScoreGen)
    ensures NextRunStage(ScoreGen) == Some(ScoreCritic)
    ensures NextRunStage(ScoreCritic) == None
  {
  }

  /** The next stage is the stage one place later, so a run never goes back and visits each stage once. */
  lemma NextRunStageLater(s: RunStage)
    ensures NextRunStage(s).Some? <==> s != ScoreCritic
    ensures NextRunStage(s).Some? ==> IndexOfStage(NextRunStage(s).value) == IndexOfStage(s) + 1
  {
  }

  /** The rubric stages use the rubric model; `SCORE_STAGES` use the scoring model and the evidence list. */
  predicate IsScoreStage(s: RunStage)
  {
    s == ScoreGen || s == ScoreCritic
  }

  // ---------------------------------------------------------------------
  // Tables

  /** The experiment fields the pipeline reads: the two stage models and the configuration. */
  datatype Experiment = Experiment(rubricModel: string, scoringModel: string, config: ExperimentConfig)

  datatype Run = Run(experimentId: nat, targetCount: int, status: string, currentStage: RunStage)

  datatype Sample = Sample(
    runId: nat,
    experimentId: nat,
    model: string,
    seed: int,
    rubricId: Option<nat>,
    rubricCriticId: Option<nat>,
    scoreId: Option<nat>,
    scoreCriticId: Option<nat>)

  datatype RubricDoc = RubricDoc(
    sampleId: nat,
    model: string,
    concept: string,
    scaleSize: int,
    requestId: nat,
    justification: string,
    stages: seq<RubricParsers.NumberedStage>,
    labelMapping: Entries)

  datatype RubricCriticDoc = RubricCriticDoc(
    sampleId: nat,
    model: string,
    requestId: nat,
    justification: string,
    observabilityScore: real,
    discriminabilityScore: real)

  datatype ScoreDoc = ScoreDoc(
    sampleId: nat,
    model: string,
    evidenceId: nat,
    requestId: nat,
    justification: string,
    decodedScores: seq<int>)

  datatype ScoreCriticDoc = ScoreCriticDoc(
    sampleId: nat,
    model: string,
    requestId: nat,
    justification: string,
    expertAgreementProb: real)

  /** A row of `experiment_evidence`. */
  datatype EvidenceLink = EvidenceLink(experimentId: nat, evidenceId: nat)

  datatype RunDb = RunDb(
    experiments: seq<Experiment>,
    runs: seq<Run>,
    samples: seq<Sample>,
    rubrics: seq<RubricDoc>,
    rubricCritics: seq<RubricCriticDoc>,
    scores: seq<ScoreDoc>,
    scoreCritics: seq<ScoreCriticDoc>,
    evidences: seq<Windows.Evidence>,
    links: seq<EvidenceLink>,
    llm: LlmTables)

  /** What a mutation leaves behind: the tables, and the message if it threw. */
  datatype Outcome = Done(db: RunDb) | Threw(db: RunDb, message: string)

  function ErrorOf(o: Outcome): Option<string>
  {
    if o.Threw? then Some(o.message) else None
  }

  /** The JSON of a stage input (`buildInputPayload`). */
  datatype Payload =
    | RubricGenInput(concept: string, scaleSize: int)
    | RubricCriticInput(concept: string, rubric: seq<RubricParsers.Stage>)
    | ScoreGenInput(config: ExperimentConfig, evidence: EvidenceContent, rubric: seq<RubricParsers.Stage>,
                    labelMapping: Entries, displaySeed: int)
    | ScoreCriticInput(evidenceText: string, rubric: seq<RubricParsers.Stage>, verdict: Option<string>)

  datatype EvidenceContent = EvidenceContent(l0Raw: string, l1Cleaned: Option<string>,
                                             l2Neutralized: Option<string>, l3Abstracted: Option<string>)

  /**
   * What the pipeline takes from outside: the engine's run policy,
   * `JSON.stringify` of an input, and the stage prompts built from an
   * input (`buildPrompts`).
   */
  datatype RunEnv = RunEnv(policy: EnginePolicy, encode: Payload -> string, prompter: RunStage -> string -> Prompts)

  /** Run statuses after which the pipeline leaves the run alone. */
  predicate Terminal(status: string)
  {
    status == "completed" || status == "canceled" || status == "error"
  }

  // ---------------------------------------------------------------------
  // Keys

  const RequestKeyError := "Unexpected target type in key: "
  const ProcessKeyError := "Unexpected process type in key: "

  /** `makeRequestKey`: `sample:<sample id>:<stage>`. */
  function SampleKey(sampleId: nat, stage: string): string
  {
    MakeKey("sample", IdText(sampleId), stage)
  }

  /** `makeProcessKey`: `run:<run id>:<stage>`. */
  function RunKey(runId: nat, stage: string): string
  {
    MakeKey("run", IdText(runId), stage)
  }

  function ParseRequestKey(key: string): Result<KeyParts>
  {
    ParseKey("sample", RequestKeyError, key)
  }

  function ParseProcessKey(key: string): Result<KeyParts>
  {
    ParseKey("run", ProcessKeyError, key)
  }

  function RequestKeyFor(stage: RunStage): string -> string
  {
    (targetId: string) => MakeKey("sample", targetId, StageName(stage))
  }

  /** A sample's request key reads back as the sample and the stage. */
  lemma RequestKeyRoundTrip(sampleId: nat, stage: RunStage)
    ensures ParseRequestKey(SampleKey(sampleId, StageName(stage))) == Success(KeyParts(Some(IdText(sampleId)), Some(StageName(stage))))
    ensures LookupId(Some(IdText(sampleId))) == Some(sampleId)
  {
    IdTextNoColon(sampleId);
    ParseMakeKey("sample", RequestKeyError, IdText(sampleId), StageName(stage));
    IdRoundTrip(sampleId);
  }

  /** A run's process key reads back as the run and the stage. */
  lemma ProcessKeyRoundTrip(runId: nat, stage: RunStage)
    ensures ParseProcessKey(RunKey(runId, StageName(stage))) == Success(KeyParts(Some(IdText(runId)), Some(StageName(stage))))
    ensures LookupId(Some(IdText(runId))) == Some(runId)
  {
    IdTextNoColon(runId);
    ParseMakeKey("run", ProcessKeyError, IdText(runId), StageName(stage));
    IdRoundTrip(runId);
  }

  /** A key with another first part is refused with the key in the message. */
  lemma ParseRequestKeyRefuses(key: string)
    requires Split(key, ':')[0] != "sample"
    ensures ParseRequestKey(key) == Failure(RequestKeyError + key)
  {
  }

  lemma ParseProcessKeyRefuses(key: string)
    requires Split(key, ':')[0] != "run"
    ensures ParseProcessKey(key) == Failure(ProcessKeyError + key)
  {
  }

  /** Distinct samples or stages have distinct request keys. */
  lemma SampleKeyInjective(a: nat, s: RunStage, b: nat, t: RunStage)
    requires SampleKey(a, StageName(s)) == SampleKey(b, StageName(t))
    ensures a == b && s == t
  {
    IdTextNoColon(a);
    IdTextNoColon(b);
    MakeKeyInjective("sample", IdText(a), StageName(s), IdText(b), StageName(t));
    IdTextInjective(a, b);
    StageNameRoundTrip(s);
    StageNameRoundTrip(t);
  }

  /**
   * Sample keys are neither run keys nor evidence keys, and the retry
   * registry has no handler for them: only the run service retries them.
   */
  lemma SampleKeysApart(sampleId: nat, stage: RunStage, id: nat, stage2: string)
    requires ':' !in stage2
    ensures SampleKey(sampleId, StageName(stage)) != RunKey(id, stage2)
    ensures SampleKey(sampleId, StageName(stage)) != Windows.EvidenceKey(id, stage2)
    ensures ResolveRequeueHandler(SampleKey(sampleId, StageName(stage))).None?
  {
    IdTextNoColon(sampleId);
    IdTextNoColon(id);
    MakeKeyKinds("sample", "run", IdText(sampleId), StageName(stage), IdText(id), stage2);
    MakeKeyKinds("sample", "evidence", IdText(sampleId), StageName(stage), IdText(id), stage2);
    RequeueHandlerOfMadeKey("sample", IdText(sampleId), StageName(stage));
  }

  /** The row a key's id part names, as a number; whether the row exists is for the caller to check. */
  function LookupId(id: Option<string>): (r: Option<nat>)
    ensures r.Some? ==> id == Some(IdText(r.value))
  {
    if id.Some? then IdOf(id.value) else None
  }

  // ---------------------------------------------------------------------
  // buildLabelMapping

  /** Draws for a seeded shuffle, which never reads them. */
  function Unused(n: nat): (randoms: seq<real>)
    ensures ValidDraws(randoms, n)
  {
    seq(n, _ => 0.0)
  }

  /** The plain mapping: the scale's letter labels in order, letter i worth i + 1. */
  function PlainMapping(letters: seq<string>): (m: Entries)
    ensures |m| == |letters|
  {
    seq(|letters|, i requires 0 <= i < |letters| => (letters[i], i + 1))
  }

  /**
   * `buildLabelMapping(config, scaleSize, seed)`, called with the
   * experiment's own scale size: the seeded shuffle when labels are
   * anonymised, otherwise the letters in order.
   */
  function BuildLabelMapping(config: ExperimentConfig, seed: int): Entries
    requires config.scaleSize <= MaxScale
  {
    var n := LengthOf(config.scaleSize);
    if ResolveRandomizationStrategy(config).anonLabel then LabelMappingOf(n, Some(seed), Unused(n))
    else PlainMapping(ResolveScaleStrategy(config).letterLabels)
  }

  /**
   * Either way the mapping gives the scale's letters, in order, a
   * permutation of 1..n; without anonymised labels letter i gets i + 1.
   */
  lemma BuildLabelMappingSpec(config: ExperimentConfig, seed: int)
    requires config.scaleSize <= MaxScale
    ensures var m := BuildLabelMapping(config, seed); var n := LengthOf(config.scaleSize);
      |m| == n && (forall i :: 0 <= i < n ==> m[i].0 == Letter(i))
      && (forall i :: 0 <= i < n ==> 1 <= m[i].1 <= n)
      && (forall i, j :: 0 <= i < j < n ==> m[i].1 != m[j].1)
    ensures !ResolveRandomizationStrategy(config).anonLabel ==>
      forall i :: 0 <= i < |BuildLabelMapping(config, seed)| ==> BuildLabelMapping(config, seed)[i] == (Letter(i), i + 1)
  {
    var n := LengthOf(config.scaleSize);
    if ResolveRandomizationStrategy(config).anonLabel {
      LabelMappingKeys(n, Some(seed), Unused(n));
      LabelMappingPermutation(n, Some(seed), Unused(n));
      var m := LabelMappingOf(n, Some(seed), Unused(n));
      assert forall i :: 0 <= i < n ==> Scores(m)[i] == m[i].1;
    }
  }

  // ---------------------------------------------------------------------
  // listEvidenceForExperiment, pickEvidenceForSample, resolveEvidenceForSample

  /**
   * The experiment's evidence among the first n links, in link order (the
   * order of creation), skipping links whose evidence is gone.
   */
  function EvidenceList(db: RunDb, experimentId: nat, n: nat): (ids: seq<nat>)
    requires n <= |db.links|
    ensures |ids| <= n && forall k :: 0 <= k < |ids| ==> ids[k] < |db.evidences|
  {
    if n == 0 then []
    else
      var link := db.links[n - 1];
      EvidenceList(db, experimentId, n - 1)
      + (if link.experimentId == experimentId && link.evidenceId < |db.evidences| then [link.evidenceId] else [])
  }

  /** An evidence is listed exactly when it exists and one of the experiment's links names it. */
  lemma {:induction false} EvidenceListMembers(db: RunDb, experimentId: nat, n: nat, id: nat)
    requires n <= |db.links|
    ensures id in EvidenceList(db, experimentId, n) <==>
      id < |db.evidences| && exists k :: 0 <= k < n && db.links[k] == EvidenceLink(experimentId, id)
  {
    if n > 0 {
      EvidenceListMembers(db, experimentId, n - 1, id);
      if db.links[n - 1] == EvidenceLink(experimentId, id) && id < |db.evidences| {
        assert id in EvidenceList(db, experimentId, n);
      }
    }
  }

  function AllEvidence(db: RunDb, experimentId: nat): seq<nat>
  {
    EvidenceList(db, experimentId, |db.links|)
  }

  /** `pickEvidenceForSample`: none for an empty list, otherwise the entry at |seed| mod n. */
  function PickEvidence(seed: int, ids: seq<nat>): (r: Option<nat>)
    ensures r.Some? <==> |ids| > 0
    ensures r.Some? ==> r.value in ids
  {
    if |ids| == 0 then None else Some(ids[Abs(seed) % |ids|])
  }

  /** The pick ignores the seed's sign and repeats with the length of the list. */
  lemma PickEvidenceSymmetry(seed: int, ids: seq<nat>)
    ensures PickEvidence(-seed, ids) == PickEvidence(seed, ids)
    ensures seed >= 0 ==> PickEvidence(seed + |ids|, ids) == PickEvidence(seed, ids)
  {
    if |ids| > 0 && seed >= 0 {
      assert Abs(seed + |ids|) == Abs(seed) + |ids|;
      ModShift(Abs(seed), |ids|);
    }
  }

  lemma ModShift(a: nat, n: nat)
    requires n > 0
    ensures (a + n) % n == a % n
  {
    var q, r := a / n, a % n;
    var q', r' := (a + n) / n, (a + n) % n;
    assert q' * n + r' == q * n + r + n;
    var d := q' - q - 1;
    assert d * n == r - r' by {
      assert d * n == q' * n - q * n - n;
    }
    MulBounds(d, n);
  }

  lemma MulBounds(d: int, n: nat)
    ensures d >= 1 ==> d * n >= n
    ensures d <= -1 ==> d * n + n <= 0
  {
  }

  /** Seeds 0..n-1 pick the listed evidences in list order. */
  lemma PickEvidenceCovers(ids: seq<nat>, k: nat)
    requires k < |ids|
    ensures PickEvidence(k, ids) == Some(ids[k])
  {
    assert Abs(k) == k;
    var n := |ids|;
    var q := k / n;
    assert q * n + k % n == k;
    MulBounds(q, n);
  }

  /** `resolveEvidenceForSample`: the same list and the same pick. */
  function ResolveEvidenceForSample(db: RunDb, s: Sample, experimentId: nat): Option<nat>
  {
    PickEvidence(s.seed, AllEvidence(db, experimentId))
  }

  // ---------------------------------------------------------------------
  // buildVerdictLabel

  /**
   * `String.fromCharCode(code)`: the UTF-16 unit `code` mod 2^16.  A lone
   * surrogate, which a `char` cannot hold, is written as U+FFFD.
   */
  function FromCharCode(code: int): (s: string)
    ensures |s| == 1
  {
    var u := code % 0x1_0000;
    if 0xD800 <= u < 0xE000 then "�" else [u as char]
  }

  /** Scores 1..MaxScale fall back to the scale's letter for that score. */
  lemma FallbackIsLetter(score: int)
    requires 1 <= score <= MaxScale
    ensures FromCharCode(64 + score) == Letter(score - 1)
  {
  }

  /** `tokens[score - 1] ?? String.fromCharCode(64 + score)`: a hole or an index out of range falls back. */
  function ResolvedToken(tokens: seq<Option<string>>, score: int): string
  {
    if 1 <= score <= |tokens| && tokens[score - 1].Some? then tokens[score - 1].value else FromCharCode(64 + score)
  }

  function NonEmpty(t: string): bool
  {
    |t| > 0
  }

  /**
   * `buildVerdictLabel(decodedScores, labelMapping, stageCount)`: ABSTAIN
   * for no scores; otherwise each score's token from the inverted mapping
   * (the letter of code 64 + score when it has none), empty tokens
   * dropped, and the rest joined with ", ".  A stage count outside
   * 0..2^32-1 makes `new Array` throw.
   */
  function BuildVerdictLabel(decoded: Option<seq<int>>, mapping: Entries, stageCount: int): (r: Result<Option<string>>)
    ensures r.Failure? <==> decoded.Some? && |decoded.value| > 0 && (stageCount < 0 || stageCount > 0xFFFF_FFFF)
  {
    if decoded.None? || |decoded.value| == 0 then Success(Some("ABSTAIN"))
    else match RunPrompts.InvertWithin(mapping, stageCount)
      case Failure(e) => Failure(e)
      case Success(tokens) =>
        var scores := decoded.value;
        var resolved := Filter(seq(|scores|, i requires 0 <= i < |scores| => ResolvedToken(tokens, scores[i])), NonEmpty);
        if |resolved| == 0 then Success(None)
        else if |resolved| == 1 then Success(Some(resolved[0]))
        else Success(Some(Join(resolved, ", ")))
  }
  /** No scores, or an empty list, is an abstention. */
  lemma VerdictLabelAbstains(decoded: Option<seq<int>>, mapping: Entries, stageCount: int)
    requires decoded.None? || decoded == Some([])
    ensures BuildVerdictLabel(decoded, mapping, stageCount) == Success(Some("ABSTAIN"))
  {
  }

  /** The inverted mapping's slot for a score names the token of the last entry with that score. */
  lemma ResolvedMapped(mapping: Entries, stageCount: int, score: int, i: nat)
    requires 1 <= score <= stageCount <= 0xFFFF_FFFF
    requires i < |mapping| && mapping[i].1 == score
    requires forall k :: i < k < |mapping| ==> mapping[k].1 != score
    ensures ResolvedToken(RunPrompts.InvertWithin(mapping, stageCount).value, score) == mapping[i].0
  {
    RunPrompts.InvertWithinPlaces(mapping, stageCount, i);
  }

  /** A score no entry names resolves to the letter of code 64 + score. */
  lemma ResolvedUnmapped(mapping: Entries, stageCount: int, score: int)
    requires 0 <= stageCount <= 0xFFFF_FFFF
    requires forall k :: 0 <= k < |mapping| ==> mapping[k].1 != score
    ensures ResolvedToken(RunPrompts.InvertWithin(mapping, stageCount).value, score) == FromCharCode(64 + score)
  {
    if 1 <= score <= stageCount {
      RunPrompts.InvertWithinSlots(mapping, stageCount, score - 1);
    }
  }

  /** One score: its token when that is not empty; nothing left to show when it is. */
  lemma VerdictLabelOne(mapping: Entries, stageCount: int, score: int)
    requires 0 <= stageCount <= 0xFFFF_FFFF
    ensures var t := ResolvedToken(RunPrompts.InvertWithin(mapping, stageCount).value, score);
      BuildVerdictLabel(Some([score]), mapping, stageCount) == Success(if t == "" then None else Some(t))
  {
    var tokens := RunPrompts.InvertWithin(mapping, stageCount).value;
    var ts := seq(1, i requires 0 <= i < 1 => ResolvedToken(tokens, [score][i]));
    assert ts == [ResolvedToken(tokens, score)];
    assert Filter(ts, NonEmpty) == if NonEmpty(ts[0]) then [ts[0]] else [];
  }

  /** With every score's token non-empty, the label is all of them, in score order, joined by ", ". */
  lemma VerdictLabelJoins(scores: seq<int>, mapping: Entries, stageCount: int)
    requires 0 <= stageCount <= 0xFFFF_FFFF && |scores| > 0
    requires forall i :: 0 <= i < |scores| ==> ResolvedToken(RunPrompts.InvertWithin(mapping, stageCount).value, scores[i]) != ""
    ensures var tokens := RunPrompts.InvertWithin(mapping, stageCount).value;
      BuildVerdictLabel(Some(scores), mapping, stageCount)
        == Success(Some(Join(seq(|scores|, i requires 0 <= i < |scores| => ResolvedToken(tokens, scores[i])), ", ")))
  {
    var tokens := RunPrompts.InvertWithin(mapping, stageCount).value;
    var ts := seq(|scores|, i requires 0 <= i < |scores| => ResolvedToken(tokens, scores[i]));
    FilterAll(ts, NonEmpty);
  }

  /** Filtering with a predicate every element meets keeps the whole sequence. */
  lemma {:induction false} FilterAll<T>(s: seq<T>, p: T -> bool)
    requires forall i :: 0 <= i < |s| ==> p(s[i])
    ensures Filter(s, p) == s
  {
    if |s| > 0 {
      FilterAll(s[1..], p);
    }
  }

  /**
   * Under the plain mapping of a scale of n letters, a score in 1..n is
   * shown as its own letter, the same letter the fallback would give.
   */
  lemma PlainVerdictLabel(n: nat, score: int)
    requires 1 <= score <= n <= MaxScale
    ensures BuildVerdictLabel(Some([score]), PlainMapping(Letters(n)), n) == Success(Some(Letter(score - 1)))
    ensures Letter(score - 1) == FromCharCode(64 + score)
  {
    var m := PlainMapping(Letters(n));
    assert m[score - 1] == (Letter(score - 1), score);
    forall k | score - 1 < k < |m| ensures m[k].1 != score {
      assert m[k].1 == k + 1;
    }
    ResolvedMapped(m, n, score, score - 1);
    VerdictLabelOne(m, n, score);
  }

  // ---------------------------------------------------------------------
  // listPendingTargets, buildInputPayload

  /** The stage filter at the head of the target loop: the stage's input is there and its output is not. */
  predicate StageOpen(s: Sample, stage: RunStage)
  {
    match stage
    case RubricGen => s.rubricId.None?
    case RubricCritic => s.rubricId.Some? && s.rubricCriticId.None?
    case ScoreGen => s.rubricId.Some? && s.scoreId.None?
    case ScoreCritic => s.scoreId.Some? && s.scoreCriticId.None?
  }

  /** `getStageOutputId`: the id a stage writes on the sample; none for a stage text that names no stage. */
  function OutputId(s: Sample, stage: Option<RunStage>): Option<nat>
  {
    match stage
    case None => None
    case Some(RubricGen) => s.rubricId
    case Some(RubricCritic) => s.rubricCriticId
    case Some(ScoreGen) => s.scoreId
    case Some(ScoreCritic) => s.scoreCriticId
  }

  /** `isStageBlockedByMissingInput`: the earlier output a stage reads is missing. */
  predicate Blocked(s: Sample, stage: Option<RunStage>)
  {
    match stage
    case Some(RubricCritic) => s.rubricId.None?
    case Some(ScoreGen) => s.rubricId.None?
    case Some(ScoreCritic) => s.scoreId.None?
    case _ => false
  }

  /** The target loop and the stage count agree: a stage is open exactly when it is neither done nor blocked. */
  lemma OpenIffUnfinished(s: Sample, stage: RunStage)
    ensures StageOpen(s, stage) <==> OutputId(s, Some(stage)).None? && !Blocked(s, Some(stage))
  {
  }

  function RubricAt(db: RunDb, id: Option<nat>): (r: Option<RubricDoc>)
    ensures r.Some? <==> id.Some? && id.value < |db.rubrics|
    ensures r.Some? ==> r.value == db.rubrics[id.value]
  {
    if id.Some? && id.value < |db.rubrics| then Some(db.rubrics[id.value]) else None
  }

  function ScoreAt(db: RunDb, id: Option<nat>): (r: Option<ScoreDoc>)
    ensures r.Some? <==> id.Some? && id.value < |db.scores|
    ensures r.Some? ==> r.value == db.scores[id.value]
  {
    if id.Some? && id.value < |db.scores| then Some(db.scores[id.value]) else None
  }

  /** `rubric.stages.map(({ label, criteria }) => ({ label, criteria }))`: the numbers dropped. */
  function RubricLines(r: RubricDoc): (lines: seq<RubricParsers.Stage>)
    ensures |lines| == |r.stages|
    ensures forall i :: 0 <= i < |lines| ==>
      lines[i].stageLabel == r.stages[i].stageLabel && lines[i].criteria == r.stages[i].criteria
  {
    seq(|r.stages|, i requires 0 <= i < |r.stages| => RubricParsers.Stage(r.stages[i].stageLabel, r.stages[i].criteria))
  }

  function ContentOf(e: Windows.Evidence): EvidenceContent
  {
    EvidenceContent(e.l0RawContent, e.l1CleanedContent, e.l2NeutralizedContent, e.l3AbstractedContent)
  }

  /** `evidence[contentField] ?? evidence.l0_raw_content`. */
  function EvidenceText(e: Windows.Evidence, f: ContentField): (t: string)
    ensures f == L0RawContent ==> t == e.l0RawContent
  {
    match f
    case L0RawContent => e.l0RawContent
    case L1CleanedContent => e.l1CleanedContent.GetOr(e.l0RawContent)
    case L2NeutralizedContent => e.l2NeutralizedContent.GetOr(e.l0RawContent)
    case L3AbstractedContent => e.l3AbstractedContent.GetOr(e.l0RawContent)
  }

  /** Every id of the list is a row of the evidence table, as every list `EvidenceList` gives is. */
  predicate ListedIn(db: RunDb, ids: seq<nat>)
  {
    forall k :: 0 <= k < |ids| ==> ids[k] < |db.evidences|
  }

  /**
   * `buildInputPayload`: the stage input, or none when a record the stage
   * reads is missing.  Only the score critique's verdict label can throw.
   */
  function InputPayload(db: RunDb, stage: RunStage, s: Sample, config: ExperimentConfig, evidenceList: seq<nat>): Result<Option<Payload>>
    requires ListedIn(db, evidenceList)
  {
    match stage {
      case RubricGen => Success(Some(RubricGenInput(config.concept, config.scaleSize)))
      case RubricCritic =>
        match RubricAt(db, s.rubricId) {
          case None => Success(None)
          case Some(r) => Success(Some(RubricCriticInput(r.concept, RubricLines(r))))
        }
      case ScoreGen =>
        match (RubricAt(db, s.rubricId), PickEvidence(s.seed, evidenceList)) {
          case (Some(r), Some(eid)) =>
            Success(Some(ScoreGenInput(config, ContentOf(db.evidences[eid]), RubricLines(r), r.labelMapping, s.seed)))
          case _ => Success(None)
        }
      case ScoreCritic =>
        match (ScoreAt(db, s.scoreId), RubricAt(db, s.rubricId)) {
          case (Some(score), Some(r)) =>
            if score.evidenceId >= |db.evidences| then Success(None)
            else
              var text := EvidenceText(db.evidences[score.evidenceId], ResolveEvidenceStrategy(config));
              match BuildVerdictLabel(Some(score.decodedScores), r.labelMapping, config.scaleSize) {
                case Failure(e) => Failure(e)
                case Success(verdict) => Success(Some(ScoreCriticInput(text, RubricLines(r), verdict)))
              }
          case _ => Success(None)
        }
    }
  }

  /** A record the stage's payload reads is missing. */
  predicate PayloadMissing(db: RunDb, stage: RunStage, s: Sample, evidenceList: seq<nat>)
  {
    match stage
    case RubricGen => false
    case RubricCritic => RubricAt(db, s.rubricId).None?
    case ScoreGen => RubricAt(db, s.rubricId).None? || |evidenceList| == 0
    case ScoreCritic =>
      ScoreAt(db, s.scoreId).None? || RubricAt(db, s.rubricId).None?
      || ScoreAt(db, s.scoreId).value.evidenceId >= |db.evidences|
  }

  /**
   * The payload is missing exactly when a record the stage reads is, and
   * building it throws only for the score critique, for a scale size
   * `new Array` refuses.
   */
  lemma InputPayloadCases(db: RunDb, stage: RunStage, s: Sample, config: ExperimentConfig, evidenceList: seq<nat>)
    requires ListedIn(db, evidenceList)
    ensures InputPayload(db, stage, s, config, evidenceList) == Success(None) <==> PayloadMissing(db, stage, s, evidenceList)
    ensures InputPayload(db, stage, s, config, evidenceList).Failure? ==>
      stage == ScoreCritic && (config.scaleSize < 0 || config.scaleSize > 0xFFFF_FFFF)
  {
  }

  /**
   * One sample of the loop: skipped when the stage is not open for it,
   * when a request under its key is pending, when its attempts are used up,
   * or when it has no payload; otherwise a target with the payload's JSON.
   */
  function SampleTarget(db: RunDb, sid: nat, stage: RunStage, config: ExperimentConfig, evidenceList: seq<nat>,
                        env: RunEnv): Result<Option<PendingTarget>>
    requires sid < |db.samples| && ListedIn(db, evidenceList)
  {
    var s := db.samples[sid];
    var key := SampleKey(sid, StageName(stage));
    if !StageOpen(s, stage) || HasPending(db.llm.requests, key)
       || KeyAttempts(db.llm.requests, key) >= env.policy.maxRequestAttempts then Success(None)
    else match InputPayload(db, stage, s, config, evidenceList)
      case Failure(e) => Failure(e)
      case Success(p) => Success(if p.None? then None else Some(PendingTarget(IdText(sid), env.encode(p.value))))
  }

  /** The targets among the first n samples, those of the run, in table order; the first throw ends the loop. */
  function RunTargets(db: RunDb, n: nat, runId: nat, stage: RunStage, config: ExperimentConfig, evidenceList: seq<nat>,
                      env: RunEnv): (r: Result<seq<PendingTarget>>)
    requires n <= |db.samples| && ListedIn(db, evidenceList)
    ensures r.Success? ==> |r.value| <= n
  {
    if n == 0 then Success([])
    else
      match RunTargets(db, n - 1, runId, stage, config, evidenceList, env)
      case Failure(e) => Failure(e)
      case Success(prior) =>
        if db.samples[n - 1].runId != runId then Success(prior)
        else
          match SampleTarget(db, n - 1, stage, config, evidenceList, env)
          case Failure(e) => Failure(e)
          case Success(t) => Success(prior + (if t.Some? then [t.value] else []))
  }

  /** Sample i belongs to the run and its target throws. */
  predicate ThrowsAt(db: RunDb, i: nat, runId: nat, stage: RunStage, config: ExperimentConfig, evidenceList: seq<nat>, env: RunEnv)
    requires i < |db.samples| && ListedIn(db, evidenceList)
  {
    db.samples[i].runId == runId && SampleTarget(db, i, stage, config, evidenceList, env).Failure?
  }

  /** Sample i belongs to the run and gives the target t. */
  predicate TargetAt(db: RunDb, i: nat, runId: nat, stage: RunStage, config: ExperimentConfig, evidenceList: seq<nat>,
                     env: RunEnv, t: PendingTarget)
    requires i < |db.samples| && ListedIn(db, evidenceList)
  {
    db.samples[i].runId == runId && SampleTarget(db, i, stage, config, evidenceList, env) == Success(Some(t))
  }

  /** A sample of the run among the first n whose target throws. */
  predicate SomeThrows(db: RunDb, n: nat, runId: nat, stage: RunStage, config: ExperimentConfig, evidenceList: seq<nat>, env: RunEnv)
    requires n <= |db.samples| && ListedIn(db, evidenceList)
  {
    exists i :: 0 <= i < n && ThrowsAt(db, i, runId, stage, config, evidenceList, env)
  }

  /** The loop throws exactly when one of the run's samples does. */
  lemma {:induction false} RunTargetsThrows(db: RunDb, n: nat, runId: nat, stage: RunStage, config: ExperimentConfig,
                                            evidenceList: seq<nat>, env: RunEnv)
    requires n <= |db.samples| && ListedIn(db, evidenceList)
    ensures RunTargets(db, n, runId, stage, config, evidenceList, env).Failure? <==>
      SomeThrows(db, n, runId, stage, config, evidenceList, env)
  {
    if n > 0 {
      RunTargetsThrows(db, n - 1, runId, stage, config, evidenceList, env);
      var prior := RunTargets(db, n - 1, runId, stage, config, evidenceList, env);
      var here := RunTargets(db, n, runId, stage, config, evidenceList, env);
      if prior.Failure? {
        assert here.Failure?;
      } else if db.samples[n - 1].runId != runId {
        assert here == prior;
        assert !ThrowsAt(db, n - 1, runId, stage, config, evidenceList, env);
      } else {
        assert here.Failure? <==> SampleTarget(db, n - 1, stage, config, evidenceList, env).Failure?;
      }
      ThrowsStep(db, n, runId, stage, config, evidenceList, env);
    }
  }

  /** The throwing samples among the first n are those among the first n - 1 and the last one. */
  lemma ThrowsStep(db: RunDb, n: nat, runId: nat, stage: RunStage, config: ExperimentConfig,
                   evidenceList: seq<nat>, env: RunEnv)
    requires 0 < n <= |db.samples| && ListedIn(db, evidenceList)
    ensures SomeThrows(db, n, runId, stage, config, evidenceList, env) <==>
      SomeThrows(db, n - 1, runId, stage, config, evidenceList, env)
      || ThrowsAt(db, n - 1, runId, stage, config, evidenceList, env)
  {
    if SomeThrows(db, n, runId, stage, config, evidenceList, env) {
      var i :| 0 <= i < n && ThrowsAt(db, i, runId, stage, config, evidenceList, env);
      if i < n - 1 {
        assert SomeThrows(db, n - 1, runId, stage, config, evidenceList, env);
      }
    }
    if SomeThrows(db, n - 1, runId, stage, config, evidenceList, env) {
      var i :| 0 <= i < n - 1 && ThrowsAt(db, i, runId, stage, config, evidenceList, env);
      assert 0 <= i < n;
    }
  }

  /** One more sample of the loop, from a prefix that has not thrown. */
  lemma RunTargetsNext(db: RunDb, i: nat, runId: nat, stage: RunStage, config: ExperimentConfig,
                       evidenceList: seq<nat>, env: RunEnv, prior: seq<PendingTarget>)
    requires i < |db.samples| && ListedIn(db, evidenceList)
    requires RunTargets(db, i, runId, stage, config, evidenceList, env) == Success(prior)
    ensures RunTargets(db, i + 1, runId, stage, config, evidenceList, env)
         == if db.samples[i].runId != runId then Success(prior)
            else match SampleTarget(db, i, stage, config, evidenceList, env)
              case Failure(e) => Failure(e)
              case Success(t) => if t.Some? then Success(prior + [t.value]) else Success(prior)
  {
    assert prior + [] == prior;
  }

  /** Once a sample throws, the rest of the loop does not run: the result is that throw. */
  lemma {:induction false} RunTargetsSticks(db: RunDb, i: nat, n: nat, runId: nat, stage: RunStage, config: ExperimentConfig,
                                            evidenceList: seq<nat>, env: RunEnv)
    requires i <= n <= |db.samples| && ListedIn(db, evidenceList)
    requires RunTargets(db, i, runId, stage, config, evidenceList, env).Failure?
    ensures RunTargets(db, n, runId, stage, config, evidenceList, env) == RunTargets(db, i, runId, stage, config, evidenceList, env)
  {
    if i < n {
      RunTargetsSticks(db, i, n - 1, runId, stage, config, evidenceList, env);
    }
  }

  /** A target is listed exactly when a sample of the run gives it. */
  lemma {:induction false} RunTargetsMembers(db: RunDb, n: nat, runId: nat, stage: RunStage, config: ExperimentConfig,
                                             evidenceList: seq<nat>, env: RunEnv, t: PendingTarget)
    requires n <= |db.samples| && ListedIn(db, evidenceList)
    requires RunTargets(db, n, runId, stage, config, evidenceList, env).Success?
    ensures t in RunTargets(db, n, runId, stage, config, evidenceList, env).value <==>
      GivesTarget(db, n, runId, stage, config, evidenceList, env, t)
  {
    if n > 0 {
      var prior := RunTargets(db, n - 1, runId, stage, config, evidenceList, env);
      assert prior.Success?;
      RunTargetsMembers(db, n - 1, runId, stage, config, evidenceList, env, t);
      var here := TargetAt(db, n - 1, runId, stage, config, evidenceList, env, t);
      var ts := RunTargets(db, n, runId, stage, config, evidenceList, env).value;
      if db.samples[n - 1].runId != runId {
        assert ts == prior.value;
      } else {
        var st := SampleTarget(db, n - 1, stage, config, evidenceList, env);
        assert st.Success?;
        assert ts == prior.value + (if st.value.Some? then [st.value.value] else []);
      }
      assert t in ts <==> t in prior.value || here;
      ExistsStep(db, n, runId, stage, config, evidenceList, env, t);
    }
  }

  /** The witnesses among the first n samples are those among the first n - 1 and the last one. */
  lemma ExistsStep(db: RunDb, n: nat, runId: nat, stage: RunStage, config: ExperimentConfig,
                   evidenceList: seq<nat>, env: RunEnv, t: PendingTarget)
    requires 0 < n <= |db.samples| && ListedIn(db, evidenceList)
    ensures GivesTarget(db, n, runId, stage, config, evidenceList, env, t) <==>
      GivesTarget(db, n - 1, runId, stage, config, evidenceList, env, t)
      || TargetAt(db, n - 1, runId, stage, config, evidenceList, env, t)
  {
    if GivesTarget(db, n, runId, stage, config, evidenceList, env, t) {
      var i :| 0 <= i < n && TargetAt(db, i, runId, stage, config, evidenceList, env, t);
      if i < n - 1 {
        assert GivesTarget(db, n - 1, runId, stage, config, evidenceList, env, t);
      }
    }
    if GivesTarget(db, n - 1, runId, stage, config, evidenceList, env, t) {
      var i :| 0 <= i < n - 1 && TargetAt(db, i, runId, stage, config, evidenceList, env, t);
      assert 0 <= i < n;
    }
  }

  /** A sample of the run among the first n gives the target t. */
  predicate GivesTarget(db: RunDb, n: nat, runId: nat, stage: RunStage, config: ExperimentConfig,
                        evidenceList: seq<nat>, env: RunEnv, t: PendingTarget)
    requires n <= |db.samples| && ListedIn(db, evidenceList)
  {
    exists i :: 0 <= i < n && TargetAt(db, i, runId, stage, config, evidenceList, env, t)
  }

  /** A listed target names a sample of the run for which the stage is open, nothing is pending and attempts are left. */
  lemma TargetIsOpen(db: RunDb, sid: nat, stage: RunStage, config: ExperimentConfig, evidenceList: seq<nat>, env: RunEnv)
    requires sid < |db.samples| && ListedIn(db, evidenceList)
    requires SampleTarget(db, sid, stage, config, evidenceList, env).Success?
    requires SampleTarget(db, sid, stage, config, evidenceList, env).value.Some?
    ensures var t := SampleTarget(db, sid, stage, config, evidenceList, env).value.value;
      t.targetId == IdText(sid) && StageOpen(db.samples[sid], stage)
      && !HasPending(db.llm.requests, SampleKey(sid, StageName(stage)))
      && KeyAttempts(db.llm.requests, SampleKey(sid, StageName(stage))) < env.policy.maxRequestAttempts
      && exists p :: InputPayload(db, stage, db.samples[sid], config, evidenceList) == Success(Some(p))
                     && t.input == env.encode(p)
  {
  }

  /** A sample's target carries the sample's id. */
  lemma TargetIdOf(db: RunDb, sid: nat, stage: RunStage, config: ExperimentConfig, evidenceList: seq<nat>, env: RunEnv,
                   t: PendingTarget)
    requires sid < |db.samples| && ListedIn(db, evidenceList)
    requires SampleTarget(db, sid, stage, config, evidenceList, env) == Success(Some(t))
    ensures t.targetId == IdText(sid)
  {
  }

  /** One step of the loop: a run's sample adds its target, if it has one; any other sample adds nothing. */
  lemma RunTargetsStep(db: RunDb, n: nat, runId: nat, stage: RunStage, config: ExperimentConfig,
                       evidenceList: seq<nat>, env: RunEnv)
    requires 0 < n <= |db.samples| && ListedIn(db, evidenceList)
    requires RunTargets(db, n, runId, stage, config, evidenceList, env).Success?
    ensures RunTargets(db, n - 1, runId, stage, config, evidenceList, env).Success?
    ensures db.samples[n - 1].runId == runId ==> SampleTarget(db, n - 1, stage, config, evidenceList, env).Success?
    ensures RunTargets(db, n, runId, stage, config, evidenceList, env).value
         == RunTargets(db, n - 1, runId, stage, config, evidenceList, env).value
            + (if db.samples[n - 1].runId == runId && SampleTarget(db, n - 1, stage, config, evidenceList, env).value.Some?
               then [SampleTarget(db, n - 1, stage, config, evidenceList, env).value.value] else [])
  {
  }

  /** Each sample is listed at most once: the targets' ids are distinct. */
  lemma {:induction false} RunTargetsDistinct(db: RunDb, n: nat, runId: nat, stage: RunStage, config: ExperimentConfig,
                                              evidenceList: seq<nat>, env: RunEnv)
    requires n <= |db.samples| && ListedIn(db, evidenceList)
    requires RunTargets(db, n, runId, stage, config, evidenceList, env).Success?
    ensures Windows.DistinctTargets(RunTargets(db, n, runId, stage, config, evidenceList, env).value)
  {
    if n > 0 {
      RunTargetsStep(db, n, runId, stage, config, evidenceList, env);
      var prior := RunTargets(db, n - 1, runId, stage, config, evidenceList, env).value;
      RunTargetsDistinct(db, n - 1, runId, stage, config, evidenceList, env);
      var t := SampleTarget(db, n - 1, stage, config, evidenceList, env);
      if db.samples[n - 1].runId == runId && t.value.Some? {
        var last := t.value.value;
        TargetIdOf(db, n - 1, stage, config, evidenceList, env, last);
        forall a | 0 <= a < |prior|
          ensures prior[a].targetId != last.targetId
        {
          RunTargetsMembers(db, n - 1, runId, stage, config, evidenceList, env, prior[a]);
          var i :| 0 <= i < n - 1 && TargetAt(db, i, runId, stage, config, evidenceList, env, prior[a]);
          TargetIdOf(db, i, stage, config, evidenceList, env, prior[a]);
          if prior[a].targetId == last.targetId {
            IdTextInjective(i, n - 1);
          }
        }
        var ts := prior + [last];
        assert ts == RunTargets(db, n, runId, stage, config, evidenceList, env).value;
        forall a, b | 0 <= a < b < |ts| ensures ts[a].targetId != ts[b].targetId {
          if b < |prior| {
            assert ts[a] == prior[a] && ts[b] == prior[b];
          } else {
            assert ts[a] == prior[a] && ts[b] == last;
          }
        }
      }
    }
  }

  /**
   * `listPendingTargets(runId, stage)`: the run and its experiment must
   * exist; the score stages read the experiment's evidence list.
   */
  function ListRunTargetsSpec(db: RunDb, runId: nat, stage: RunStage, env: RunEnv): Result<seq<PendingTarget>>
  {
    if runId >= |db.runs| then Failure("Run not found")
    else
      var run := db.runs[runId];
      if run.experimentId >= |db.experiments| then Failure("Experiment not found")
      else
        var evidenceList := if IsScoreStage(stage) then AllEvidence(db, run.experimentId) else [];
        RunTargets(db, |db.samples|, runId, stage, db.experiments[run.experimentId].config, evidenceList, env)
  }

  /** `getModelForStage`: the rubric model for the rubric stages, the scoring model for the others. */
  function ModelForStage(db: RunDb, runId: nat, stage: RunStage): (r: Result<string>)
    ensures r.Success? <==> runId < |db.runs| && db.runs[runId].experimentId < |db.experiments|
    ensures r.Success? ==> var e := db.experiments[db.runs[runId].experimentId];
      r.value == (if IsScoreStage(stage) then e.scoringModel else e.rubricModel)
  {
    if runId >= |db.runs| then Failure("Run not found")
    else if db.runs[runId].experimentId >= |db.experiments| then Failure("Experiment not found")
    else
      var e := db.experiments[db.runs[runId].experimentId];
      if stage == RubricGen || stage == RubricCritic then Success(e.rubricModel) else Success(e.scoringModel)
  }

  // ---------------------------------------------------------------------
  // enqueueStage

  /**
   * `enqueueStage(runId, stage)` of the run orchestrator: no targets leaves
   * everything as it is; otherwise the stage's model routes one request per
   * target into a new batch or job under the run's process key.
   */
  function EnqueueRunSpec(db: RunDb, runId: nat, stage: RunStage, env: RunEnv): Outcome
  {
    match ListRunTargetsSpec(db, runId, stage, env)
    case Failure(e) => Threw(db, e)
    case Success(targets) =>
      if |targets| == 0 then Done(db)
      else match ModelForStage(db, runId, stage)
        case Failure(e) => Threw(db, e)
        case Success(model) =>
          if Providers.ModelById(model).Failure? then Threw(db, Windows.UndefinedRead)
          else Done(db.(llm := Enqueued(db.llm, targets, model, env.prompter(stage), RequestKeyFor(stage),
                                       RunKey(runId, StageName(stage)), env.policy)))
  }

  /** Enqueueing only ever appends LLM rows, and a throw changes nothing. */
  lemma EnqueueRunFrame(db: RunDb, runId: nat, stage: RunStage, env: RunEnv)
    ensures var o := EnqueueRunSpec(db, runId, stage, env);
      o.db.(llm := db.llm) == db
      && |db.llm.requests| <= |o.db.llm.requests| && o.db.llm.requests[..|db.llm.requests|] == db.llm.requests
      && (o.Threw? ==> o.db == db)
  {
    var o := EnqueueRunSpec(db, runId, stage, env);
    if o.Done? && o.db != db {
      var targets := ListRunTargetsSpec(db, runId, stage, env).value;
      var model := ModelForStage(db, runId, stage).value;
      EnqueuedKeepsRows(db.llm, targets, model, env.prompter(stage), RequestKeyFor(stage), RunKey(runId, StageName(stage)), env.policy);
    }
  }

  /** An enqueue that adds requests had targets and a known model, and added them through `Enqueued`. */
  lemma EnqueueRunShape(db: RunDb, runId: nat, stage: RunStage, env: RunEnv)
    requires |db.llm.requests| < |EnqueueRunSpec(db, runId, stage, env).db.llm.requests|
    ensures ListRunTargetsSpec(db, runId, stage, env).Success? && ModelForStage(db, runId, stage).Success?
    ensures Providers.ModelById(ModelForStage(db, runId, stage).value).Success?
    ensures EnqueueRunSpec(db, runId, stage, env).db.llm
         == Enqueued(db.llm, ListRunTargetsSpec(db, runId, stage, env).value, ModelForStage(db, runId, stage).value,
                     env.prompter(stage), RequestKeyFor(stage), RunKey(runId, StageName(stage)), env.policy)
  {
  }

  /**
   * Each request the enqueue adds is under the key of a sample of the run
   * for which the stage was open, and it is pending.
   */
  lemma EnqueueRunKeys(db: RunDb, runId: nat, stage: RunStage, env: RunEnv, k: nat) returns (sid: nat)
    requires |db.llm.requests| <= k < |EnqueueRunSpec(db, runId, stage, env).db.llm.requests|
    ensures sid < |db.samples| && db.samples[sid].runId == runId && StageOpen(db.samples[sid], stage)
    ensures var q := EnqueueRunSpec(db, runId, stage, env).db.llm.requests[k];
      q.customKey == SampleKey(sid, StageName(stage)) && q.status == Pending
  {
    EnqueueRunShape(db, runId, stage, env);
    var run := db.runs[runId];
    var config := db.experiments[run.experimentId].config;
    var evidenceList := if IsScoreStage(stage) then AllEvidence(db, run.experimentId) else [];
    var targets := ListRunTargetsSpec(db, runId, stage, env).value;
    assert targets == RunTargets(db, |db.samples|, runId, stage, config, evidenceList, env).value;
    var model := ModelForStage(db, runId, stage).value;
    var j := k - |db.llm.requests|;
    assert j < |targets| by {
      EnqueuedKeepsRows(db.llm, targets, model, env.prompter(stage), RequestKeyFor(stage), RunKey(runId, StageName(stage)), env.policy);
    }
    assert targets[j] in targets;
    sid := TargetSample(db, runId, stage, config, evidenceList, env, targets[j]);
    EnqueuedRequest(db.llm, targets, model, env.prompter(stage), RequestKeyFor(stage), RunKey(runId, StageName(stage)), env.policy, j);
  }

  /** The sample behind a listed target. */
  lemma TargetSample(db: RunDb, runId: nat, stage: RunStage, config: ExperimentConfig, evidenceList: seq<nat>, env: RunEnv,
                     t: PendingTarget) returns (sid: nat)
    requires ListedIn(db, evidenceList)
    requires RunTargets(db, |db.samples|, runId, stage, config, evidenceList, env).Success?
    requires t in RunTargets(db, |db.samples|, runId, stage, config, evidenceList, env).value
    ensures sid < |db.samples| && db.samples[sid].runId == runId && StageOpen(db.samples[sid], stage)
    ensures t.targetId == IdText(sid)
    ensures RequestKeyFor(stage)(t.targetId) == SampleKey(sid, StageName(stage))
  {
    RunTargetsMembers(db, |db.samples|, runId, stage, config, evidenceList, env, t);
    sid :| 0 <= sid < |db.samples| && TargetAt(db, sid, runId, stage, config, evidenceList, env, t);
    TargetIsOpen(db, sid, stage, config, evidenceList, env);
  }

  // ---------------------------------------------------------------------
  // maybeAdvanceRunStage

  /**
   * Where one sample stands in a stage, read in the loop's order: an
   * output means done, a missing input means failed; then a pending
   * request, or none at all, means still going, and otherwise the attempts
   * decide.  The stage is the text of a key, so it may name no stage.
   */
  function ProgressOf(s: Sample, sid: nat, rs: seq<LlmRequest>, stage: string, maxAttempts: int): Windows.Progress
  {
    var named := StageNamed(stage);
    if OutputId(s, named).Some? then Windows.Finished
    else if Blocked(s, named) then Windows.Stuck
    else
      var key := SampleKey(sid, stage);
      if HasPending(rs, key) then Windows.Waiting
      else if Count(rs, KeyIs(key)) == 0 then Windows.Waiting
      else if KeyAttempts(rs, key) >= maxAttempts then Windows.Stuck
      else Windows.Waiting
  }

  /** The counters of the stage loop. */
  datatype RunTally = RunTally(samples: nat, completed: nat, failed: nat, hasPending: bool)

  /** The counters over the run's samples among the first n rows. */
  function TallyOf(db: RunDb, n: nat, runId: nat, stage: string, maxAttempts: int): RunTally
    requires n <= |db.samples|
  {
    if n == 0 then RunTally(0, 0, 0, false)
    else
      var t := TallyOf(db, n - 1, runId, stage, maxAttempts);
      var s := db.samples[n - 1];
      if s.runId != runId then t
      else match ProgressOf(s, n - 1, db.llm.requests, stage, maxAttempts)
        case Finished => t.(samples := t.samples + 1, completed := t.completed + 1)
        case Stuck => t.(samples := t.samples + 1, failed := t.failed + 1)
        case Waiting => t.(samples := t.samples + 1, hasPending := true)
  }

  /** Sample i belongs to the run and stands at p. */
  predicate StandsAt(db: RunDb, i: nat, runId: nat, stage: string, maxAttempts: int, p: Windows.Progress)
    requires i < |db.samples|
  {
    db.samples[i].runId == runId && ProgressOf(db.samples[i], i, db.llm.requests, stage, maxAttempts) == p
  }

  /** Some sample of the run among the first n rows stands at p. */
  predicate SomeAt(db: RunDb, n: nat, runId: nat, stage: string, maxAttempts: int, p: Windows.Progress)
    requires n <= |db.samples|
  {
    exists i :: 0 <= i < n && StandsAt(db, i, runId, stage, maxAttempts, p)
  }

  predicate HasSample(db: RunDb, n: nat, runId: nat)
    requires n <= |db.samples|
  {
    exists i :: 0 <= i < n && db.samples[i].runId == runId
  }

  /** Extending the rows by one adds that row's progress, if it belongs to the run. */
  lemma SomeAtStep(db: RunDb, n: nat, runId: nat, stage: string, maxAttempts: int, q: Windows.Progress)
    requires 0 < n <= |db.samples|
    ensures SomeAt(db, n, runId, stage, maxAttempts, q) <==>
      SomeAt(db, n - 1, runId, stage, maxAttempts, q) || StandsAt(db, n - 1, runId, stage, maxAttempts, q)
  {
    if SomeAt(db, n, runId, stage, maxAttempts, q) {
      var i :| 0 <= i < n && StandsAt(db, i, runId, stage, maxAttempts, q);
      if i < n - 1 {
        assert SomeAt(db, n - 1, runId, stage, maxAttempts, q);
      }
    }
    if SomeAt(db, n - 1, runId, stage, maxAttempts, q) {
      var i :| 0 <= i < n - 1 && StandsAt(db, i, runId, stage, maxAttempts, q);
      assert 0 <= i < n;
    }
  }

  lemma HasSampleStep(db: RunDb, n: nat, runId: nat)
    requires 0 < n <= |db.samples|
    ensures HasSample(db, n, runId) <==> HasSample(db, n - 1, runId) || db.samples[n - 1].runId == runId
  {
    if HasSample(db, n, runId) {
      var i :| 0 <= i < n && db.samples[i].runId == runId;
      if i < n - 1 {
        assert HasSample(db, n - 1, runId);
      }
    }
    if HasSample(db, n - 1, runId) {
      var i :| 0 <= i < n - 1 && db.samples[i].runId == runId;
      assert 0 <= i < n;
    }
  }

  /** What each counter of the stage loop means. */
  lemma {:induction false} TallyMeaning(db: RunDb, n: nat, runId: nat, stage: string, maxAttempts: int)
    requires n <= |db.samples|
    ensures var t := TallyOf(db, n, runId, stage, maxAttempts);
      (t.hasPending <==> SomeAt(db, n, runId, stage, maxAttempts, Windows.Waiting))
      && (t.completed > 0 <==> SomeAt(db, n, runId, stage, maxAttempts, Windows.Finished))
      && (t.failed > 0 <==> SomeAt(db, n, runId, stage, maxAttempts, Windows.Stuck))
      && (t.samples > 0 <==> HasSample(db, n, runId))
      && (!t.hasPending ==> t.completed + t.failed == t.samples)
  {
    if n > 0 {
      TallyMeaning(db, n - 1, runId, stage, maxAttempts);
      SomeAtStep(db, n, runId, stage, maxAttempts, Windows.Waiting);
      SomeAtStep(db, n, runId, stage, maxAttempts, Windows.Finished);
      SomeAtStep(db, n, runId, stage, maxAttempts, Windows.Stuck);
      HasSampleStep(db, n, runId);
      var prior := TallyOf(db, n - 1, runId, stage, maxAttempts);
      var s := db.samples[n - 1];
      var p := ProgressOf(s, n - 1, db.llm.requests, stage, maxAttempts);
      var t := TallyOf(db, n, runId, stage, maxAttempts);
      if s.runId != runId {
        assert t == prior;
      } else if p == Windows.Finished {
        assert t == prior.(samples := prior.samples + 1, completed := prior.completed + 1);
      } else if p == Windows.Stuck {
        assert t == prior.(samples := prior.samples + 1, failed := prior.failed + 1);
      } else {
        assert t == prior.(samples := prior.samples + 1, hasPending := true);
      }
    }
  }

  /**
   * A sample counts as done exactly when the stage's output is on it, and
   * a sample whose input is missing counts as failed whatever its requests.
   */
  lemma ProgressByRecords(s: Sample, sid: nat, rs: seq<LlmRequest>, stage: RunStage, maxAttempts: int)
    ensures ProgressOf(s, sid, rs, StageName(stage), maxAttempts) == Windows.Finished <==> OutputId(s, Some(stage)).Some?
    ensures OutputId(s, Some(stage)).None? && Blocked(s, Some(stage)) ==>
      ProgressOf(s, sid, rs, StageName(stage), maxAttempts) == Windows.Stuck
  {
    StageNameRoundTrip(stage);
  }

  /** A sample with a pending request under its key, and no output or missing input, is still going. */
  lemma PendingIsWaiting(s: Sample, sid: nat, rs: seq<LlmRequest>, stage: RunStage, maxAttempts: int, k: nat)
    requires StageOpen(s, stage)
    requires k < |rs| && rs[k].customKey == SampleKey(sid, StageName(stage)) && rs[k].status == Pending
    ensures ProgressOf(s, sid, rs, StageName(stage), maxAttempts) == Windows.Waiting
  {
    StageNameRoundTrip(stage);
    OpenIffUnfinished(s, stage);
    HasPendingWitness(rs, SampleKey(sid, StageName(stage)));
  }

  /** What a stage notice does to its run. */
  datatype Advance = Stay | FailRun | CompleteRun | MoveTo(next: RunStage)

  /** The decision at the end of the stage loop, for a stage given as text. */
  function AdvanceOf(db: RunDb, runId: nat, stage: string, maxAttempts: int): Advance
  {
    if runId >= |db.runs| || Terminal(db.runs[runId].status) then Stay
    else
      var t := TallyOf(db, |db.samples|, runId, stage, maxAttempts);
      if t.samples == 0 || t.hasPending then Stay
      else if t.completed == 0 && t.failed > 0 then FailRun
      else if NextStageOfText(stage).None? then CompleteRun
      else if StageName(db.runs[runId].currentStage) != stage then Stay
      else MoveTo(NextStageOfText(stage).value)
  }

  /** The run a stage notice may change: it exists, is not finished, and has samples. */
  predicate Live(db: RunDb, runId: nat)
  {
    runId < |db.runs| && !Terminal(db.runs[runId].status) && HasSample(db, |db.samples|, runId)
  }

  predicate AnyAt(db: RunDb, runId: nat, stage: string, maxAttempts: int, p: Windows.Progress)
  {
    SomeAt(db, |db.samples|, runId, stage, maxAttempts, p)
  }

  /** A run fails a stage exactly when no sample is going, none finished, and some failed. */
  lemma AdvanceFailsIff(db: RunDb, runId: nat, stage: string, maxAttempts: int)
    ensures AdvanceOf(db, runId, stage, maxAttempts) == FailRun <==>
      Live(db, runId) && !AnyAt(db, runId, stage, maxAttempts, Windows.Waiting)
      && !AnyAt(db, runId, stage, maxAttempts, Windows.Finished) && AnyAt(db, runId, stage, maxAttempts, Windows.Stuck)
  {
    TallyMeaning(db, |db.samples|, runId, stage, maxAttempts);
  }

  /**
   * A run moves on exactly when it sits at this stage, no sample is going,
   * at least one finished, and a next stage exists.
   */
  lemma AdvanceMovesIff(db: RunDb, runId: nat, stage: RunStage, maxAttempts: int, next: RunStage)
    ensures AdvanceOf(db, runId, StageName(stage), maxAttempts) == MoveTo(next) <==>
      Live(db, runId) && !AnyAt(db, runId, StageName(stage), maxAttempts, Windows.Waiting)
      && AnyAt(db, runId, StageName(stage), maxAttempts, Windows.Finished)
      && NextRunStage(stage) == Some(next) && db.runs[runId].currentStage == stage
  {
    TallyMeaning(db, |db.samples|, runId, StageName(stage), maxAttempts);
    StageNameRoundTrip(stage);
    if runId < |db.runs| {
      StageNameInjective(stage, db.runs[runId].currentStage);
    }
  }

  lemma StageNameInjective(a: RunStage, b: RunStage)
    ensures StageName(a) == StageName(b) <==> a == b
  {
    StageNameRoundTrip(a);
    StageNameRoundTrip(b);
  }

  /**
   * The last stage, or a text naming no stage, completes the run once no
   * sample is going and at least one finished, wherever the run sits.
   */
  lemma AdvanceCompletesIff(db: RunDb, runId: nat, stage: string, maxAttempts: int)
    ensures AdvanceOf(db, runId, stage, maxAttempts) == CompleteRun <==>
      Live(db, runId) && !AnyAt(db, runId, stage, maxAttempts, Windows.Waiting)
      && AnyAt(db, runId, stage, maxAttempts, Windows.Finished) && NextStageOfText(stage).None?
  {
    TallyMeaning(db, |db.samples|, runId, stage, maxAttempts);
  }

  /** While any sample of the stage is still going, the run stays as it is. */
  lemma AdvanceWaits(db: RunDb, runId: nat, stage: string, maxAttempts: int)
    requires AnyAt(db, runId, stage, maxAttempts, Windows.Waiting)
    ensures AdvanceOf(db, runId, stage, maxAttempts) == Stay
  {
    TallyMeaning(db, |db.samples|, runId, stage, maxAttempts);
  }

  const StageSchemaError := "Schema validation failed: current_stage is not a run stage"

  function SetRun(db: RunDb, runId: nat, status: string, stage: RunStage): RunDb
    requires runId < |db.runs|
  {
    db.(runs := db.runs[runId := db.runs[runId].(status := status, currentStage := stage)])
  }

  /** A mutation's nested step that threw rolls the whole mutation back. */
  function Committed(o: Outcome, db: RunDb): (r: Outcome)
    ensures r.Threw? <==> o.Threw?
    ensures r.Threw? ==> r == Threw(db, o.message)
    ensures r.Done? ==> r == o
  {
    match o
    case Threw(_, m) => Threw(db, m)
    case Done(d) => Done(d)
  }

  /**
   * `maybeAdvanceRunStage(runId, stage)`.  Writing a stage text that names
   * no stage into `current_stage` fails the schema and throws.
   */
  function MaybeAdvanceRunSpec(db: RunDb, runId: nat, stage: string, env: RunEnv): Outcome
  {
    match AdvanceOf(db, runId, stage, env.policy.maxRequestAttempts)
    case Stay => Done(db)
    case FailRun =>
      if StageNamed(stage).None? then Threw(db, StageSchemaError)
      else Done(SetRun(db, runId, "error", StageNamed(stage).value))
    case CompleteRun =>
      if StageNamed(stage).None? then Threw(db, StageSchemaError)
      else Done(SetRun(db, runId, "completed", StageNamed(stage).value))
    case MoveTo(next) =>
      var moved := db.(runs := db.runs[runId := db.runs[runId].(currentStage := next)]);
      Committed(EnqueueRunSpec(moved, runId, next, env), db)
  }

  /**
   * A stage notice changes only the run's own row and appends LLM requests,
   * and it rolls back when it throws.
   */
  lemma MaybeAdvanceRunFrame(db: RunDb, runId: nat, stage: string, env: RunEnv)
    ensures var o := MaybeAdvanceRunSpec(db, runId, stage, env);
      o.db.(runs := db.runs, llm := db.llm) == db && |o.db.runs| == |db.runs|
      && (forall r :: 0 <= r < |db.runs| && r != runId ==> o.db.runs[r] == db.runs[r])
      && |db.llm.requests| <= |o.db.llm.requests| && o.db.llm.requests[..|db.llm.requests|] == db.llm.requests
      && (o.Threw? ==> o.db == db)
  {
    var a := AdvanceOf(db, runId, stage, env.policy.maxRequestAttempts);
    if a.MoveTo? {
      var moved := db.(runs := db.runs[runId := db.runs[runId].(currentStage := a.next)]);
      EnqueueRunFrame(moved, runId, a.next, env);
    }
  }

  /**
   * Finishing a known stage sets the run's status and leaves it at that
   * stage; moving on sets it at the next stage, status unchanged.
   */
  lemma MaybeAdvanceRunEffect(db: RunDb, runId: nat, stage: RunStage, env: RunEnv)
    requires runId < |db.runs|
    ensures var a := AdvanceOf(db, runId, StageName(stage), env.policy.maxRequestAttempts);
      var o := MaybeAdvanceRunSpec(db, runId, StageName(stage), env);
      (a == Stay ==> o == Done(db))
      && (a == FailRun ==> o == Done(SetRun(db, runId, "error", stage)))
      && (a == CompleteRun ==> o == Done(SetRun(db, runId, "completed", stage)))
      && (a.MoveTo? && o.Done? ==> o.db.runs[runId] == db.runs[runId].(currentStage := a.next))
  {
    StageNameRoundTrip(stage);
    var a := AdvanceOf(db, runId, StageName(stage), env.policy.maxRequestAttempts);
    if a.MoveTo? {
      var moved := db.(runs := db.runs[runId := db.runs[runId].(currentStage := a.next)]);
      EnqueueRunFrame(moved, runId, a.next, env);
    }
  }

  /**
   * The requests a stage's enqueue adds hold the stage open: right after
   * it, a notice for that stage leaves the run as it is.
   */
  lemma EnqueueHoldsStage(db: RunDb, runId: nat, stage: RunStage, env: RunEnv, maxAttempts: int)
    requires |db.llm.requests| < |EnqueueRunSpec(db, runId, stage, env).db.llm.requests|
    ensures AdvanceOf(EnqueueRunSpec(db, runId, stage, env).db, runId, StageName(stage), maxAttempts) == Stay
  {
    var d := EnqueueRunSpec(db, runId, stage, env).db;
    EnqueueRunFrame(db, runId, stage, env);
    var k := |db.llm.requests|;
    var sid := EnqueueRunKeys(db, runId, stage, env, k);
    assert d.samples == db.samples;
    PendingIsWaiting(d.samples[sid], sid, d.llm.requests, stage, maxAttempts, k);
    assert StandsAt(d, sid, runId, StageName(stage), maxAttempts, Windows.Waiting);
    assert SomeAt(d, |d.samples|, runId, StageName(stage), maxAttempts, Windows.Waiting);
    AdvanceWaits(d, runId, StageName(stage), maxAttempts);
  }

  /**
   * A repeated notice for a stage the run has already left changes
   * nothing: the next stage is enqueued once.
   */
  lemma MaybeAdvanceRunOnce(db: RunDb, runId: nat, stage: RunStage, env: RunEnv)
    requires AdvanceOf(db, runId, StageName(stage), env.policy.maxRequestAttempts).MoveTo?
    requires MaybeAdvanceRunSpec(db, runId, StageName(stage), env).Done?
    ensures var d := MaybeAdvanceRunSpec(db, runId, StageName(stage), env).db;
      d.runs[runId].currentStage == NextRunStage(stage).value
      && MaybeAdvanceRunSpec(d, runId, StageName(stage), env) == Done(d)
  {
    var max := env.policy.maxRequestAttempts;
    var next := AdvanceOf(db, runId, StageName(stage), max).next;
    AdvanceMovesIff(db, runId, stage, max, next);
    var moved := db.(runs := db.runs[runId := db.runs[runId].(currentStage := next)]);
    EnqueueRunFrame(moved, runId, next, env);
    var d := MaybeAdvanceRunSpec(db, runId, StageName(stage), env).db;
    assert d.samples == db.samples && d.runs == moved.runs;
    assert AnyAt(d, runId, StageName(stage), max, Windows.Finished) by {
      var i :| 0 <= i < |db.samples| && StandsAt(db, i, runId, StageName(stage), max, Windows.Finished);
      ProgressByRecords(db.samples[i], i, db.llm.requests, stage, max);
      ProgressByRecords(d.samples[i], i, d.llm.requests, stage, max);
      assert StandsAt(d, i, runId, StageName(stage), max, Windows.Finished);
    }
    AdvanceFailsIff(d, runId, StageName(stage), max);
    AdvanceMovesIff(d, runId, stage, max, next);
    AdvanceCompletesIff(d, runId, StageName(stage), max);
    NextRunStageLater(stage);
    StageNameRoundTrip(stage);
    assert NextStageOfText(StageName(stage)) == NextRunStage(stage);
  }

  // ---------------------------------------------------------------------
  // applyRequestResult, handleRequestError, requeueRunRequest

  /** The sample a key's id part names, if it is a row of the table. */
  function SampleOf(db: RunDb, id: Option<string>): (r: Option<nat>)
    ensures r.Some? ==> r.value < |db.samples| && id == Some(IdText(r.value))
    ensures forall sid: nat :: id == Some(IdText(sid)) && sid < |db.samples| ==> r == Some(sid)
  {
    IdRoundTripAll();
    if LookupId(id).Some? && LookupId(id).value < |db.samples| then LookupId(id) else None
  }

  lemma IdRoundTripAll()
    ensures forall sid: nat {:trigger IdText(sid)} :: IdOf(IdText(sid)) == Some(sid)
  {
    forall sid: nat ensures IdOf(IdText(sid)) == Some(sid) {
      IdRoundTrip(sid);
    }
  }

  /** The record a label mapping spells: later entries for a label override earlier ones. */
  function EntriesMap(m: Entries): map<string, int>
  {
    if |m| == 0 then map[] else EntriesMap(m[..|m| - 1])[m[|m| - 1].0 := m[|m| - 1].1]
  }

  /** The record's labels are the entries' labels. */
  lemma {:induction false} EntriesMapKeys(m: Entries, l: string)
    ensures l in EntriesMap(m) <==> exists i :: 0 <= i < |m| && m[i].0 == l
  {
    if |m| > 0 {
      var init := m[..|m| - 1];
      EntriesMapKeys(init, l);
      if exists i :: 0 <= i < |init| && init[i].0 == l {
        var i :| 0 <= i < |init| && init[i].0 == l;
        assert m[i].0 == l;
      }
      if exists i :: 0 <= i < |m| && m[i].0 == l {
        var i :| 0 <= i < |m| && m[i].0 == l;
        if i < |init| {
          assert init[i].0 == l;
        }
      }
    }
  }

  /** A label's value is that of its last entry. */
  lemma {:induction false} EntriesMapLast(m: Entries, i: nat)
    requires i < |m| && forall j :: i < j < |m| ==> m[j].0 != m[i].0
    ensures m[i].0 in EntriesMap(m) && EntriesMap(m)[m[i].0] == m[i].1
  {
    if i < |m| - 1 {
      var init := m[..|m| - 1];
      assert init[i] == m[i];
      forall j | i < j < |init| ensures init[j].0 != init[i].0 {
        assert init[j] == m[j];
      }
      EntriesMapLast(init, i);
    }
  }

  const LetterRangeError := "Scale size beyond the letter range"

  /**
   * The body of the `try` block of `applyRequestResult`: the stage's
   * output is parsed, one row is inserted into the stage's table and the
   * sample is pointed at it.  Each branch throws before it writes.  A key
   * with another stage text records nothing.
   */
  function RecordStage(db: RunDb, sid: nat, stage: Option<string>, requestId: nat, output: string): Result<RunDb>
    requires sid < |db.samples|
  {
    if stage == Some("rubric_gen") then RecordRubric(db, sid, requestId, output)
    else if stage == Some("rubric_critic") then RecordRubricCritic(db, sid, requestId, output)
    else if stage == Some("score_gen") then RecordScore(db, sid, requestId, output)
    else if stage == Some("score_critic") then RecordScoreCritic(db, sid, requestId, output)
    else Success(db)
  }

  /** The rubric is parsed against the experiment's scale size and gets the sample's label mapping. */
  function RecordRubric(db: RunDb, sid: nat, requestId: nat, output: string): Result<RunDb>
    requires sid < |db.samples|
  {
    match RubricDocFor(db, sid, requestId, output)
    case Failure(err) => Failure(err)
    case Success(doc) =>
      Success(db.(rubrics := db.rubrics + [doc], samples := db.samples[sid := db.samples[sid].(rubricId := Some(|db.rubrics|))]))
  }

  /** The rubric row, or the error that stops it. */
  function RubricDocFor(db: RunDb, sid: nat, requestId: nat, output: string): (r: Result<RubricDoc>)
    requires sid < |db.samples|
    ensures r.Success? ==> r.value.sampleId == sid && r.value.requestId == requestId
  {
    var s := db.samples[sid];
    if s.experimentId >= |db.experiments| then Failure("Experiment not found")
    else
      var e := db.experiments[s.experimentId];
      match RubricParsers.NumberedRubricOf(output, e.config.scaleSize) {
        case Failure(err) => Failure(err)
        case Success(parsed) =>
          if e.config.scaleSize > MaxScale then Failure(LetterRangeError)
          else
            Success(RubricDoc(sid, e.rubricModel, e.config.concept, e.config.scaleSize, requestId,
                              parsed.reasoning, parsed.stages, BuildLabelMapping(e.config, s.seed)))
      }
  }

  /** The critique needs the sample's rubric and takes the rubric's model. */
  function RecordRubricCritic(db: RunDb, sid: nat, requestId: nat, output: string): Result<RunDb>
    requires sid < |db.samples|
  {
    match RubricCriticDocFor(db, sid, requestId, output)
    case Failure(err) => Failure(err)
    case Success(doc) =>
      Success(db.(rubricCritics := db.rubricCritics + [doc],
                  samples := db.samples[sid := db.samples[sid].(rubricCriticId := Some(|db.rubricCritics|))]))
  }

  /** The critique row, or the error that stops it. */
  function RubricCriticDocFor(db: RunDb, sid: nat, requestId: nat, output: string): (r: Result<RubricCriticDoc>)
    requires sid < |db.samples|
    ensures r.Success? ==> r.value.sampleId == sid && r.value.requestId == requestId
  {
    var s := db.samples[sid];
    if s.rubricId.None? then Failure("Rubric missing for sample")
    else
      match (RubricAt(db, s.rubricId), RubricParsers.QualityOf(output)) {
        case (None, _) => Failure("Rubric not found")
        case (Some(_), Failure(err)) => Failure(err)
        case (Some(r), Success(q)) =>
          Success(RubricCriticDoc(sid, r.model, requestId, q.reasoning, q.observabilityScore, q.discriminabilityScore))
      }
  }

  /**
   * The score needs the sample's rubric, experiment and evidence; the
   * verdict is parsed with the rubric's label mapping under the
   * experiment's scoring method, and an abstention stores no scores.
   */
  function RecordScore(db: RunDb, sid: nat, requestId: nat, output: string): Result<RunDb>
    requires sid < |db.samples|
  {
    match ScoreDocFor(db, sid, requestId, output)
    case Failure(err) => Failure(err)
    case Success(doc) =>
      Success(db.(scores := db.scores + [doc], samples := db.samples[sid := db.samples[sid].(scoreId := Some(|db.scores|))]))
  }

  /** The score row, or the error that stops it. */
  function ScoreDocFor(db: RunDb, sid: nat, requestId: nat, output: string): (r: Result<ScoreDoc>)
    requires sid < |db.samples|
    ensures r.Success? ==> r.value.sampleId == sid && r.value.requestId == requestId
  {
    var s := db.samples[sid];
    if s.rubricId.None? then Failure("Rubric missing for sample")
    else if s.experimentId >= |db.experiments| then Failure("Experiment not found")
    else if RubricAt(db, s.rubricId).None? then Failure("Rubric not found")
    else
      var r := RubricAt(db, s.rubricId).value;
      match ResolveEvidenceForSample(db, s, s.experimentId) {
        case None => Failure("Evidence not found for sample")
        case Some(eid) =>
          match ResolveScoringStrategy(db.experiments[s.experimentId].config) {
            case Failure(err) => Failure(err)
            case Success(scoring) =>
              match (ParseVerdict(scoring, output, Some(EntriesMap(r.labelMapping))), ScoringParsers.ReasoningBeforeVerdict(output)) {
                case (Failure(err), _) => Failure(err)
                case (Success(_), Failure(err)) => Failure(err)
                case (Success(verdict), Success(justification)) =>
                  Success(ScoreDoc(sid, s.model, eid, requestId, justification, verdict.decodedScores.GetOr([])))
              }
          }
      }
  }

  /** The score critique needs the sample's score and takes the sample's model. */
  function RecordScoreCritic(db: RunDb, sid: nat, requestId: nat, output: string): Result<RunDb>
    requires sid < |db.samples|
  {
    match ScoreCriticDocFor(db, sid, requestId, output)
    case Failure(err) => Failure(err)
    case Success(doc) =>
      Success(db.(scoreCritics := db.scoreCritics + [doc],
                  samples := db.samples[sid := db.samples[sid].(scoreCriticId := Some(|db.scoreCritics|))]))
  }

  /** The score critique row, or the error that stops it. */
  function ScoreCriticDocFor(db: RunDb, sid: nat, requestId: nat, output: string): (r: Result<ScoreCriticDoc>)
    requires sid < |db.samples|
    ensures r.Success? ==> r.value.sampleId == sid && r.value.requestId == requestId
  {
    var s := db.samples[sid];
    if s.scoreId.None? then Failure("Score missing for sample")
    else
      match ScoringParsers.ExpertAgreementOf(output) {
        case Failure(err) => Failure(err)
        case Success(a) => Success(ScoreCriticDoc(sid, s.model, requestId, a.reasoning, a.expertAgreementProb))
      }
  }

  /** The number of rows in a stage's output table. */
  function OutputCount(db: RunDb, stage: RunStage): nat
  {
    match stage
    case RubricGen => |db.rubrics|
    case RubricCritic => |db.rubricCritics|
    case ScoreGen => |db.scores|
    case ScoreCritic => |db.scoreCritics|
  }

  /** The sample and the request a row of a stage's output table records. */
  function OutputSource(db: RunDb, stage: RunStage, id: nat): Option<(nat, nat)>
  {
    match stage
    case RubricGen => if id < |db.rubrics| then Some((db.rubrics[id].sampleId, db.rubrics[id].requestId)) else None
    case RubricCritic => if id < |db.rubricCritics| then Some((db.rubricCritics[id].sampleId, db.rubricCritics[id].requestId)) else None
    case ScoreGen => if id < |db.scores| then Some((db.scores[id].sampleId, db.scores[id].requestId)) else None
    case ScoreCritic => if id < |db.scoreCritics| then Some((db.scoreCritics[id].sampleId, db.scoreCritics[id].requestId)) else None
  }

  /** Only the sample's own field for the stage changes. */
  predicate SameSampleBut(a: Sample, b: Sample, stage: RunStage)
  {
    match stage
    case RubricGen => b == a.(rubricId := b.rubricId)
    case RubricCritic => b == a.(rubricCriticId := b.rubricCriticId)
    case ScoreGen => b == a.(scoreId := b.scoreId)
    case ScoreCritic => b == a.(scoreCriticId := b.scoreCriticId)
  }

  /**
   * d is db with one row, for sample sid and this request, appended to the
   * stage's table and the sample's field for the stage pointed at it;
   * nothing else differs.
   */
  predicate RecordedWrite(db: RunDb, d: RunDb, sid: nat, stage: RunStage, requestId: nat)
    requires sid < |db.samples|
  {
    var id := OutputCount(db, stage);
    OutputCount(d, stage) == id + 1 && OutputSource(d, stage, id) == Some((sid, requestId))
    && (forall j :: 0 <= j < id ==> OutputSource(d, stage, j) == OutputSource(db, stage, j))
    && |d.samples| == |db.samples| && OutputId(d.samples[sid], Some(stage)) == Some(id)
    && SameSampleBut(db.samples[sid], d.samples[sid], stage)
    && (forall j :: 0 <= j < |db.samples| && j != sid ==> d.samples[j] == db.samples[j])
    && d.runs == db.runs && d.experiments == db.experiments && d.llm == db.llm
  }

  /** A recorded stage writes exactly its row and the sample's field for it. */
  lemma RecordStageWrites(db: RunDb, sid: nat, stage: RunStage, requestId: nat, output: string)
    requires sid < |db.samples|
    requires RecordStage(db, sid, Some(StageName(stage)), requestId, output).Success?
    ensures RecordedWrite(db, RecordStage(db, sid, Some(StageName(stage)), requestId, output).value, sid, stage, requestId)
  {
    var d := RecordStage(db, sid, Some(StageName(stage)), requestId, output).value;
    match stage {
      case RubricGen =>
        assert d == RecordRubric(db, sid, requestId, output).value;
        RubricWrites(db, sid, requestId, output);
      case RubricCritic =>
        assert d == RecordRubricCritic(db, sid, requestId, output).value;
        RubricCriticWrites(db, sid, requestId, output);
      case ScoreGen =>
        assert d == RecordScore(db, sid, requestId, output).value;
        ScoreWrites(db, sid, requestId, output);
      case ScoreCritic =>
        assert d == RecordScoreCritic(db, sid, requestId, output).value;
        ScoreCriticWrites(db, sid, requestId, output);
    }
  }

  /** RecordRubric either passes on the row's error or appends the row and links it. */
  lemma RecordRubricOutcome(db: RunDb, sid: nat, requestId: nat, output: string)
    requires sid < |db.samples|
    ensures var doc := RubricDocFor(db, sid, requestId, output);
      RecordRubric(db, sid, requestId, output) ==
        if doc.Failure? then Failure(doc.error)
        else Success(db.(rubrics := db.rubrics + [doc.value], samples := db.samples[sid := db.samples[sid].(rubricId := Some(|db.rubrics|))]))
  {
  }

  lemma RubricWrites(db: RunDb, sid: nat, requestId: nat, output: string)
    requires sid < |db.samples| && RecordRubric(db, sid, requestId, output).Success?
    ensures RecordedWrite(db, RecordRubric(db, sid, requestId, output).value, sid, RubricGen, requestId)
  {
    RecordRubricOutcome(db, sid, requestId, output);
    RubricAppendWrites(db, sid, requestId, RubricDocFor(db, sid, requestId, output).value);
  }

  /** Appending a rubric row for the sample and linking it is a recorded write. */
  lemma RubricAppendWrites(db: RunDb, sid: nat, requestId: nat, doc: RubricDoc)
    requires sid < |db.samples| && doc.sampleId == sid && doc.requestId == requestId
    ensures RecordedWrite(db, db.(rubrics := db.rubrics + [doc], samples := db.samples[sid := db.samples[sid].(rubricId := Some(|db.rubrics|))]), sid, RubricGen, requestId)
  {
    var d := db.(rubrics := db.rubrics + [doc], samples := db.samples[sid := db.samples[sid].(rubricId := Some(|db.rubrics|))]);
    var n := |db.rubrics|;
    assert d.rubrics[..n] == db.rubrics && |d.rubrics| == n + 1;
    forall j | 0 <= j < n ensures OutputSource(d, RubricGen, j) == OutputSource(db, RubricGen, j) {
      assert d.rubrics[j] == d.rubrics[..n][j];
    }
  }

  lemma RubricCriticWrites(db: RunDb, sid: nat, requestId: nat, output: string)
    requires sid < |db.samples| && RecordRubricCritic(db, sid, requestId, output).Success?
    ensures RecordedWrite(db, RecordRubricCritic(db, sid, requestId, output).value, sid, RubricCritic, requestId)
  {
    var doc := RubricCriticDocFor(db, sid, requestId, output).value;
    var d := RecordRubricCritic(db, sid, requestId, output).value;
    var n := |db.rubricCritics|;
    assert d.rubricCritics[..n] == db.rubricCritics && |d.rubricCritics| == n + 1;
    assert d.rubricCritics[n].sampleId == sid && d.rubricCritics[n].requestId == requestId;
    assert d.samples == db.samples[sid := db.samples[sid].(rubricCriticId := Some(n))];
    assert d == db.(rubricCritics := d.rubricCritics, samples := d.samples);
    forall j | 0 <= j < n ensures OutputSource(d, RubricCritic, j) == OutputSource(db, RubricCritic, j) {
      assert d.rubricCritics[j] == d.rubricCritics[..n][j];
    }
  }

  lemma ScoreWrites(db: RunDb, sid: nat, requestId: nat, output: string)
    requires sid < |db.samples| && RecordScore(db, sid, requestId, output).Success?
    ensures RecordedWrite(db, RecordScore(db, sid, requestId, output).value, sid, ScoreGen, requestId)
  {
    var doc := ScoreDocFor(db, sid, requestId, output).value;
    var d := RecordScore(db, sid, requestId, output).value;
    var n := |db.scores|;
    assert d.scores[..n] == db.scores && |d.scores| == n + 1;
    assert d.scores[n].sampleId == sid && d.scores[n].requestId == requestId;
    assert d.samples == db.samples[sid := db.samples[sid].(scoreId := Some(n))];
    assert d == db.(scores := d.scores, samples := d.samples);
    forall j | 0 <= j < n ensures OutputSource(d, ScoreGen, j) == OutputSource(db, ScoreGen, j) {
      assert d.scores[j] == d.scores[..n][j];
    }
  }

  lemma ScoreCriticWrites(db: RunDb, sid: nat, requestId: nat, output: string)
    requires sid < |db.samples| && RecordScoreCritic(db, sid, requestId, output).Success?
    ensures RecordedWrite(db, RecordScoreCritic(db, sid, requestId, output).value, sid, ScoreCritic, requestId)
  {
    var doc := ScoreCriticDocFor(db, sid, requestId, output).value;
    var d := RecordScoreCritic(db, sid, requestId, output).value;
    var n := |db.scoreCritics|;
    assert d.scoreCritics[..n] == db.scoreCritics && |d.scoreCritics| == n + 1;
    assert d.scoreCritics[n].sampleId == sid && d.scoreCritics[n].requestId == requestId;
    assert d.samples == db.samples[sid := db.samples[sid].(scoreCriticId := Some(n))];
    assert d == db.(scoreCritics := d.scoreCritics, samples := d.samples);
    forall j | 0 <= j < n ensures OutputSource(d, ScoreCritic, j) == OutputSource(db, ScoreCritic, j) {
      assert d.scoreCritics[j] == d.scoreCritics[..n][j];
    }
  }

  /** A stage whose input is missing on the sample cannot be recorded. */
  lemma RecordStageNeedsInput(db: RunDb, sid: nat, stage: RunStage, requestId: nat, output: string)
    requires sid < |db.samples| && Blocked(db.samples[sid], Some(stage))
    ensures RecordStage(db, sid, Some(StageName(stage)), requestId, output).Failure?
  {
  }

  /** `markRequestParseFailure`: the request errs with the message and its attempts set to the limit. */
  function MarkParseFailure(r: LlmRequest, message: string, maxAttempts: int): LlmRequest
  {
    // A valid policy has a limit of at least one, so the clamp never applies to it.
    r.(status := Errored, attempts := if maxAttempts < 0 then 0 else maxAttempts, lastError := Some(message))
  }

  /**
   * After a parse failure the sample counts as failed in the stage,
   * provided no other request under its key is still pending.
   */
  lemma ParseFailureFails(s: Sample, sid: nat, rs: seq<LlmRequest>, k: nat, stage: RunStage, message: string, maxAttempts: int)
    requires k < |rs| && rs[k].customKey == SampleKey(sid, StageName(stage))
    requires OutputId(s, Some(stage)).None?
    requires forall j :: 0 <= j < |rs| && j != k && rs[j].customKey == rs[k].customKey ==> rs[j].status != Pending
    ensures ProgressOf(s, sid, rs[k := MarkParseFailure(rs[k], message, maxAttempts)], StageName(stage), maxAttempts) == Windows.Stuck
  {
    StageNameRoundTrip(stage);
    var key := SampleKey(sid, StageName(stage));
    var rs' := rs[k := MarkParseFailure(rs[k], message, maxAttempts)];
    HasPendingWitness(rs', key);
    CountPositive(rs', KeyIs(key));
    assert KeyIs(key)(rs'[k]);
    if maxAttempts > 0 {
      KeyAttemptsReached(rs', key, maxAttempts);
    }
  }

  function WithOutput(r: LlmRequest, output: string, inputTokens: Option<int>, outputTokens: Option<int>): LlmRequest
  {
    r.(status := Succeeded, output := Some(output), inputTokens := inputTokens, outputTokens := outputTokens)
  }

  function PatchRequest(db: RunDb, requestId: nat, r: LlmRequest): RunDb
    requires requestId < |db.llm.requests|
  {
    db.(llm := db.llm.(requests := db.llm.requests[requestId := r]))
  }

  /**
   * `applyRequestResult`.  A bad key or a missing sample throws before
   * anything is written.  A throw inside the `try` block marks the request
   * as a parse failure and re-counts the stage; otherwise the request
   * succeeds with the output and the stage is re-counted.  A request that
   * is not in the table makes its patch throw, which rolls everything back.
   */
  function ApplyRunResultSpec(db: RunDb, requestId: nat, customKey: string, output: string,
                              inputTokens: Option<int>, outputTokens: Option<int>, env: RunEnv): Outcome
  {
    match ParseRequestKey(customKey)
    case Failure(e) => Threw(db, e)
    case Success(parts) =>
      match SampleOf(db, parts.id)
      case None => Threw(db, "Sample not found")
      case Some(sid) =>
        if requestId >= |db.llm.requests| then Threw(db, Windows.MissingDocument)
        else ApplyToSample(db, sid, parts.stage, requestId, output, inputTokens, outputTokens, env)
  }

  /**
   * The body of `applyRequestResult` once the sample and the request are
   * found: record the stage's row (or mark the parse failure), patch the
   * request and re-count the run's stage, all rolled back on a throw.
   */
  function ApplyToSample(db: RunDb, sid: nat, stage: Option<string>, requestId: nat, output: string,
                         inputTokens: Option<int>, outputTokens: Option<int>, env: RunEnv): Outcome
    requires sid < |db.samples| && requestId < |db.llm.requests|
  {
    var recorded := RecordAndPatch(db, sid, stage, requestId, output, inputTokens, outputTokens, env);
    Committed(MaybeAdvanceRunSpec(recorded, db.samples[sid].runId, PartText(stage), env), db)
  }

  /**
   * The stage's row is recorded and the request gets the output; when the
   * row cannot be recorded, only the request is marked as a parse failure.
   */
  function RecordAndPatch(db: RunDb, sid: nat, stage: Option<string>, requestId: nat, output: string,
                          inputTokens: Option<int>, outputTokens: Option<int>, env: RunEnv): RunDb
    requires sid < |db.samples| && requestId < |db.llm.requests|
  {
    var r := db.llm.requests[requestId];
    match RecordStage(db, sid, stage, requestId, output)
    case Failure(message) => PatchRequest(db, requestId, MarkParseFailure(r, message, env.policy.maxRequestAttempts))
    case Success(recorded) => PatchRequest(recorded, requestId, WithOutput(r, output, inputTokens, outputTokens))
  }

  /** Keys that are not sample keys, and keys naming no sample, are refused without a change. */
  lemma ApplyRunResultRefuses(db: RunDb, requestId: nat, customKey: string, output: string,
                              inputTokens: Option<int>, outputTokens: Option<int>, env: RunEnv)
    requires ParseRequestKey(customKey).Failure? || SampleOf(db, ParseRequestKey(customKey).value.id).None?
    ensures ApplyRunResultSpec(db, requestId, customKey, output, inputTokens, outputTokens, env).Threw?
    ensures ApplyRunResultSpec(db, requestId, customKey, output, inputTokens, outputTokens, env).db == db
  {
  }

  /**
   * A result under a sample's own key either records the stage (a new row,
   * the sample pointed at it, the request succeeded with the output) or,
   * when the output does not parse, marks the request as failed with the
   * attempts used up and records nothing.  A throw changes nothing.
   */
  lemma ApplyRunResultEffect(db: RunDb, requestId: nat, sid: nat, stage: RunStage, output: string,
                             inputTokens: Option<int>, outputTokens: Option<int>, env: RunEnv)
    requires sid < |db.samples| && requestId < |db.llm.requests|
    ensures var o := ApplyRunResultSpec(db, requestId, SampleKey(sid, StageName(stage)), output, inputTokens, outputTokens, env);
      var rec := RecordStage(db, sid, Some(StageName(stage)), requestId, output);
      var r := db.llm.requests[requestId];
      (o.Threw? ==> o.db == db)
      && (o.Done? ==> |o.db.llm.requests| >= |db.llm.requests| && |o.db.samples| == |db.samples|)
      && (o.Done? && rec.Success? ==>
            o.db.samples == rec.value.samples && OutputId(o.db.samples[sid], Some(stage)) == Some(OutputCount(db, stage))
            && o.db.llm.requests[requestId] == WithOutput(r, output, inputTokens, outputTokens))
      && (o.Done? && rec.Failure? ==>
            o.db.samples == db.samples
            && o.db.llm.requests[requestId] == MarkParseFailure(r, rec.error, env.policy.maxRequestAttempts))
  {
    RequestKeyRoundTrip(sid, stage);
    var key := SampleKey(sid, StageName(stage));
    assert SampleOf(db, Some(IdText(sid))) == Some(sid);
    var rec := RecordStage(db, sid, Some(StageName(stage)), requestId, output);
    var r := db.llm.requests[requestId];
    var runId := db.samples[sid].runId;
    if rec.Success? {
      RecordStageWrites(db, sid, stage, requestId, output);
      var done := PatchRequest(rec.value, requestId, WithOutput(r, output, inputTokens, outputTokens));
      MaybeAdvanceRunFrame(done, runId, StageName(stage), env);
      var o := MaybeAdvanceRunSpec(done, runId, StageName(stage), env);
      assert o.db.llm.requests[requestId] == o.db.llm.requests[..|done.llm.requests|][requestId];
    } else {
      var marked := PatchRequest(db, requestId, MarkParseFailure(r, rec.error, env.policy.maxRequestAttempts));
      MaybeAdvanceRunFrame(marked, runId, StageName(stage), env);
      var o := MaybeAdvanceRunSpec(marked, runId, StageName(stage), env);
      assert o.db.llm.requests[requestId] == o.db.llm.requests[..|marked.llm.requests|][requestId];
    }
  }

  /** `handleRequestError`: the key's sample must exist, and its stage is re-counted. */
  function HandleRunErrorSpec(db: RunDb, customKey: string, env: RunEnv): Outcome
  {
    match ParseRequestKey(customKey)
    case Failure(e) => Threw(db, e)
    case Success(parts) =>
      match SampleOf(db, parts.id)
      case None => Threw(db, "Sample not found")
      case Some(sid) => MaybeAdvanceRunSpec(db, db.samples[sid].runId, PartText(parts.stage), env)
  }

  /** An error notice changes no sample and no existing request; it can only move, fail or complete the sample's run. */
  lemma HandleRunErrorFrame(db: RunDb, customKey: string, env: RunEnv)
    ensures var o := HandleRunErrorSpec(db, customKey, env);
      o.db.samples == db.samples && o.db.experiments == db.experiments && |o.db.runs| == |db.runs|
      && |db.llm.requests| <= |o.db.llm.requests| && o.db.llm.requests[..|db.llm.requests|] == db.llm.requests
      && (o.Threw? ==> o.db == db)
  {
    var parts := ParseRequestKey(customKey);
    if parts.Success? && SampleOf(db, parts.value.id).Some? {
      var sid := SampleOf(db, parts.value.id).value;
      MaybeAdvanceRunFrame(db, db.samples[sid].runId, PartText(parts.value.stage), env);
    }
  }

  /**
   * `requeueRunRequest`: the request moves to a new job under its sample's
   * run and stage, with the provider of its model, and leaves its batch.
   */
  function RequeueRunSpec(db: RunDb, requestId: nat): Outcome
  {
    if requestId >= |db.llm.requests| then Threw(db, "Request not found")
    else
      var r := db.llm.requests[requestId];
      match ParseRequestKey(r.customKey)
      case Failure(e) => Threw(db, e)
      case Success(parts) =>
        match SampleOf(db, parts.id)
        case None => Threw(db, "Sample not found for retry: " + PartText(parts.id))
        case Some(sid) =>
          match Providers.ProviderForModel(r.model)
          case Failure(e) => Threw(db, e)
          case Success(provider) =>
            var job := NewJob(provider, r.model, RunKey(db.samples[sid].runId, PartText(parts.stage)));
            Done(db.(llm := db.llm.(jobs := db.llm.jobs + [job],
                                    requests := db.llm.requests[requestId := r.(jobId := Some(|db.llm.jobs|), batchId := None)])))
  }

  /**
   * Retrying a sample's request adds exactly one queued job keyed by the
   * sample's run and stage, points the request at it and out of its batch,
   * and changes nothing else.
   */
  lemma RequeueRunEffect(db: RunDb, requestId: nat, sid: nat, stage: RunStage)
    requires requestId < |db.llm.requests| && sid < |db.samples|
    requires db.llm.requests[requestId].customKey == SampleKey(sid, StageName(stage))
    requires Providers.ModelById(db.llm.requests[requestId].model).Success?
    ensures var o := RequeueRunSpec(db, requestId); var r := db.llm.requests[requestId];
      o.Done? && o.db.(llm := db.llm) == db && o.db.llm.batches == db.llm.batches
      && o.db.llm.jobs == db.llm.jobs + [NewJob("openai", r.model, RunKey(db.samples[sid].runId, StageName(stage)))]
      && o.db.llm.requests == db.llm.requests[requestId := r.(jobId := Some(|db.llm.jobs|), batchId := None)]
  {
    RequestKeyRoundTrip(sid, stage);
    assert SampleOf(db, Some(IdText(sid))) == Some(sid);
    Providers.EveryModelIsOpenAI(db.llm.requests[requestId].model);
  }

  /** Keys naming no sample are refused, unchanged, with the id part in the message. */
  lemma RequeueRunRefuses(db: RunDb, requestId: nat)
    requires requestId < |db.llm.requests|
    requires ParseRequestKey(db.llm.requests[requestId].customKey).Success?
    requires SampleOf(db, ParseRequestKey(db.llm.requests[requestId].customKey).value.id).None?
    ensures RequeueRunSpec(db, requestId)
         == Threw(db, "Sample not found for retry: " + PartText(ParseRequestKey(db.llm.requests[requestId].customKey).value.id))
  {
  }

  // ---------------------------------------------------------------------
  // startRunFlow, seedRunSamples, startRunOrchestration

  /** The sample row the service inserts: no stage output yet. */
  function NewSample(runId: nat, experimentId: nat, model: string, seed: int): Sample
  {
    Sample(runId, experimentId, model, seed, None, None, None, None)
  }

  /** The samples the seeding loop inserts: seeds first + 1 up to first + count. */
  function FreshSamples(runId: nat, experimentId: nat, model: string, first: nat, count: nat): (ss: seq<Sample>)
    ensures |ss| == count
  {
    seq(count, i requires 0 <= i < count => NewSample(runId, experimentId, model, first + i + 1))
  }

  /** One more fresh sample is the next seed appended. */
  lemma FreshSamplesSnoc(runId: nat, experimentId: nat, model: string, first: nat, count: nat)
    ensures FreshSamples(runId, experimentId, model, first, count + 1)
         == FreshSamples(runId, experimentId, model, first, count) + [NewSample(runId, experimentId, model, first + count + 1)]
  {
    var a := FreshSamples(runId, experimentId, model, first, count + 1);
    var b := FreshSamples(runId, experimentId, model, first, count) + [NewSample(runId, experimentId, model, first + count + 1)];
    assert |a| == |b|;
    forall k | 0 <= k < |a| ensures a[k] == b[k] {
    }
  }

  /** The seeds of the run's samples, in table order (what `by_run` returns). */
  function SeedsOf(samples: seq<Sample>, runId: nat): seq<int>
  {
    if |samples| == 0 then []
    else SeedsOf(samples[..|samples| - 1], runId)
         + (if samples[|samples| - 1].runId == runId then [samples[|samples| - 1].seed] else [])
  }

  /** `1 .. n` shifted by first: first + 1, ..., first + n. */
  function SeedRange(first: nat, n: nat): (r: seq<int>)
    ensures |r| == n && forall i :: 0 <= i < n ==> r[i] == first + i + 1
  {
    seq(n, i requires 0 <= i < n => first + i + 1)
  }

  lemma {:induction false} SeedsOfAppend(a: seq<Sample>, b: seq<Sample>, runId: nat)
    ensures SeedsOf(a + b, runId) == SeedsOf(a, runId) + SeedsOf(b, runId)
  {
    if |b| > 0 {
      var b' := b[..|b| - 1];
      var last := b[|b| - 1];
      var tail := if last.runId == runId then [last.seed] else [];
      assert (a + b)[..|a + b| - 1] == a + b' && (a + b)[|a + b| - 1] == last;
      assert SeedsOf(a + b, runId) == SeedsOf(a + b', runId) + tail;
      assert SeedsOf(b, runId) == SeedsOf(b', runId) + tail;
      SeedsOfAppend(a, b', runId);
      calc {
        SeedsOf(a + b, runId);
        SeedsOf(a + b', runId) + tail;
        (SeedsOf(a, runId) + SeedsOf(b', runId)) + tail;
        SeedsOf(a, runId) + (SeedsOf(b', runId) + tail);
        SeedsOf(a, runId) + SeedsOf(b, runId);
      }
    } else {
      assert a + b == a;
    }
  }

  lemma {:induction false} SeedsOfFresh(runId: nat, experimentId: nat, model: string, first: nat, count: nat)
    ensures SeedsOf(FreshSamples(runId, experimentId, model, first, count), runId) == SeedRange(first, count)
  {
    if count > 0 {
      var ss := FreshSamples(runId, experimentId, model, first, count);
      assert ss[..count - 1] == FreshSamples(runId, experimentId, model, first, count - 1);
      assert ss[count - 1] == NewSample(runId, experimentId, model, first + count);
      assert SeedsOf(ss, runId) == SeedsOf(ss[..count - 1], runId) + [first + count];
      SeedsOfFresh(runId, experimentId, model, first, count - 1);
      assert SeedRange(first, count) == SeedRange(first, count - 1) + [first + count];
    }
  }

  /** A run none of whose samples exist yet has no seeds. */
  lemma {:induction false} SeedsOfNone(samples: seq<Sample>, runId: nat)
    requires forall i :: 0 <= i < |samples| ==> samples[i].runId != runId
    ensures SeedsOf(samples, runId) == []
  {
    if |samples| > 0 {
      SeedsOfNone(samples[..|samples| - 1], runId);
    }
  }

  /** Every sample belongs to a run of the table. */
  predicate SamplesOfRuns(db: RunDb)
  {
    forall i :: 0 <= i < |db.samples| ==> db.samples[i].runId < |db.runs|
  }

  /**
   * `startRunFlow(experimentId, targetCount)`: a new run at rubric_gen with
   * samples seeded 1..targetCount (inserted as "start", then set
   * "running"), and its rubric_gen requests enqueued.  The schema demands
   * a whole target count of at least 1.
   */
  function StartRunFlowSpec(db: RunDb, experimentId: nat, targetCount: int, env: RunEnv): Outcome
    requires targetCount >= 1
  {
    if experimentId >= |db.experiments| then Threw(db, "Experiment not found")
    else
      var e := db.experiments[experimentId];
      var runId := |db.runs|;
      var started := db.(runs := db.runs + [Run(experimentId, targetCount, "running", RubricGen)],
                         samples := db.samples + FreshSamples(runId, experimentId, e.scoringModel, 0, targetCount));
      Committed(EnqueueRunSpec(started, runId, RubricGen, env), db)
  }

  /**
   * A started run is appended to the runs, running at rubric_gen; its
   * samples are exactly the new ones, seeded 1..targetCount with the
   * scoring model; nothing else but LLM rows changes.
   */
  lemma StartRunFlowEffect(db: RunDb, experimentId: nat, targetCount: int, env: RunEnv)
    requires targetCount >= 1 && SamplesOfRuns(db)
    requires StartRunFlowSpec(db, experimentId, targetCount, env).Done?
    ensures var d := StartRunFlowSpec(db, experimentId, targetCount, env).db;
      experimentId < |db.experiments|
      && d.runs == db.runs + [Run(experimentId, targetCount, "running", RubricGen)]
      && d.samples == db.samples + FreshSamples(|db.runs|, experimentId, db.experiments[experimentId].scoringModel, 0, targetCount)
      && SeedsOf(d.samples, |db.runs|) == SeedRange(0, targetCount)
      && SamplesOfRuns(d)
  {
    var e := db.experiments[experimentId];
    var runId := |db.runs|;
    var added := FreshSamples(runId, experimentId, e.scoringModel, 0, targetCount);
    var started := db.(runs := db.runs + [Run(experimentId, targetCount, "running", RubricGen)],
                       samples := db.samples + added);
    var o := EnqueueRunSpec(started, runId, RubricGen, env);
    EnqueueRunFrame(started, runId, RubricGen, env);
    assert StartRunFlowSpec(db, experimentId, targetCount, env) == Committed(o, db);
    assert o.Done?;
    var d := o.db;
    assert d.samples == started.samples && d.runs == started.runs;
    SeedsAfterStart(db, experimentId, e.scoringModel, targetCount);
  }

  /** Appending a new run's fresh samples gives that run exactly the seeds 1..count, and keeps every sample's run in the table. */
  lemma SeedsAfterStart(db: RunDb, experimentId: nat, model: string, count: nat)
    requires SamplesOfRuns(db)
    ensures var added := FreshSamples(|db.runs|, experimentId, model, 0, count);
      SeedsOf(db.samples + added, |db.runs|) == SeedRange(0, count)
      && forall r :: SamplesOfRuns(db.(runs := db.runs + [r], samples := db.samples + added))
  {
    var runId := |db.runs|;
    var added := FreshSamples(runId, experimentId, model, 0, count);
    SeedsOfAppend(db.samples, added, runId);
    SeedsOfNone(db.samples, runId);
    SeedsOfFresh(runId, experimentId, model, 0, count);
    forall r ensures SamplesOfRuns(db.(runs := db.runs + [r], samples := db.samples + added)) {
      var d := db.(runs := db.runs + [r], samples := db.samples + added);
      forall i | 0 <= i < |d.samples| ensures d.samples[i].runId < |d.runs| {
        if i >= |db.samples| {
          assert d.samples[i] == added[i - |db.samples|];
        } else {
          assert d.samples[i] == db.samples[i];
        }
      }
    }
  }

  datatype Seeded = Seeded(db: RunDb, created: nat)

  /**
   * `seedRunSamples(runId)`: tops the run's samples up to its target
   * count, continuing the seeds after the existing ones; a full run gets
   * nothing.
   */
  function SeedRunSamplesSpec(db: RunDb, runId: nat): Result<Seeded>
  {
    if runId >= |db.runs| then Failure("Run not found")
    else
      var run := db.runs[runId];
      if run.experimentId >= |db.experiments| then Failure("Experiment not found")
      else
        var existing := |SeedsOf(db.samples, runId)|;
        if existing >= run.targetCount then Success(Seeded(db, 0))
        else
          var created := run.targetCount - existing;
          var model := db.experiments[run.experimentId].scoringModel;
          Success(Seeded(db.(samples := db.samples + FreshSamples(runId, run.experimentId, model, existing, created)), created))
  }

  /**
   * After seeding, the run has max(existing, target) samples: the existing
   * seeds followed by existing + 1 .. target, and the count returned is
   * the number added.
   */
  lemma SeedRunSamplesTopsUp(db: RunDb, runId: nat)
    requires SeedRunSamplesSpec(db, runId).Success?
    ensures var r := SeedRunSamplesSpec(db, runId).value; var before := SeedsOf(db.samples, runId);
      var target := db.runs[runId].targetCount;
      SeedsOf(r.db.samples, runId) == before + SeedRange(|before|, r.created)
      && (r.created == 0 <==> |before| >= target)
      && (r.created > 0 ==> |SeedsOf(r.db.samples, runId)| == target)
      && r.db.(samples := db.samples) == db && r.db.samples[..|db.samples|] == db.samples
  {
    var r := SeedRunSamplesSpec(db, runId).value;
    var run := db.runs[runId];
    var existing := |SeedsOf(db.samples, runId)|;
    if existing < run.targetCount {
      var created := run.targetCount - existing;
      var added := FreshSamples(runId, run.experimentId, db.experiments[run.experimentId].scoringModel, existing, created);
      SeedsOfAppend(db.samples, added, runId);
      SeedsOfFresh(runId, run.experimentId, db.experiments[run.experimentId].scoringModel, existing, created);
      assert r.db.samples == db.samples + added;
    }
  }

  /** Seeding twice adds nothing the second time. */
  lemma SeedRunSamplesIdempotent(db: RunDb, runId: nat)
    requires SeedRunSamplesSpec(db, runId).Success?
    ensures var d := SeedRunSamplesSpec(db, runId).value.db; SeedRunSamplesSpec(d, runId) == Success(Seeded(d, 0))
  {
    SeedRunSamplesTopsUp(db, runId);
  }

  /** A run started by `startRunFlow` is already full. */
  lemma StartedRunIsFull(db: RunDb, experimentId: nat, targetCount: int, env: RunEnv)
    requires targetCount >= 1 && SamplesOfRuns(db)
    requires StartRunFlowSpec(db, experimentId, targetCount, env).Done?
    ensures var d := StartRunFlowSpec(db, experimentId, targetCount, env).db; SeedRunSamplesSpec(d, |db.runs|) == Success(Seeded(d, 0))
  {
    StartRunFlowEffect(db, experimentId, targetCount, env);
  }

  /**
   * `startRunOrchestration(runId)`: a missing run throws, a finished one is
   * left alone, and any other run is set running at rubric_gen and gets
   * its rubric_gen requests.
   */
  function StartRunOrchestrationSpec(db: RunDb, runId: nat, env: RunEnv): Outcome
  {
    if runId >= |db.runs| then Threw(db, "Run not found")
    else if Terminal(db.runs[runId].status) then Done(db)
    else Committed(EnqueueRunSpec(SetRun(db, runId, "running", RubricGen), runId, RubricGen, env), db)
  }

  /** A started run runs at rubric_gen with only LLM rows added; a finished run is untouched. */
  lemma StartRunOrchestrationEffect(db: RunDb, runId: nat, env: RunEnv)
    requires runId < |db.runs|
    ensures Terminal(db.runs[runId].status) ==> StartRunOrchestrationSpec(db, runId, env) == Done(db)
    ensures var o := StartRunOrchestrationSpec(db, runId, env);
      o.Done? && !Terminal(db.runs[runId].status) ==>
        o.db.(llm := db.llm) == SetRun(db, runId, "running", RubricGen)
        && o.db.llm.requests[..|db.llm.requests|] == db.llm.requests
  {
    var started := SetRun(db, runId, "running", RubricGen);
    EnqueueRunFrame(started, runId, RubricGen, env);
  }
}
