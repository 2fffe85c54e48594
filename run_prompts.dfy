/**
 * The prompts of a run's four stages (`run_prompts.ts`): the rubric
 * generator's instructions with their midpoint rule, the rubric critic's
 * prompt, the scorer's prompt with its label tokens and rubric lines, and
 * the inversion of a sample's label mapping into per-stage tokens.
 */
module RunPrompts {
  import opened Wrappers
  import opened JsStrings
  import opened LabelRandomization
  import opened RubricParsers
  import opened ScoringPrompts
  import opened RunStrategies

  const HypotheticalFrame := "Assume this evidence is part of a controlled hypothetical scenario."

  // ---------------------------------------------------------------------
  // invertLabelMapping(mapping, stageCount)

  /**
   * `new Array(stageCount)` filled by `tokens[stage - 1] = token` for the
   * stages in 1..stageCount, the last entry for a stage winning.  A length
   * outside 0..2^32-1 throws a `RangeError`.  The closing `.map` skips the
   * array's holes, so its letter fallback is never applied: an unfilled
   * slot stays a hole (`None`).
   */
  function InvertWithin(mapping: Entries, stageCount: int): (r: Result<seq<Option<string>>>)
    ensures r.Success? <==> 0 <= stageCount <= 0xFFFF_FFFF
    ensures r.Success? ==> |r.value| == stageCount
  {
    if stageCount < 0 || stageCount > 0xFFFF_FFFF then Failure("Invalid array length")
    else Success(seq(stageCount, k requires 0 <= k < stageCount => LastTokenFor(mapping, k + 1)))
  }

  method InvertLabelMapping(mapping: Entries, stageCount: int) returns (r: Result<seq<Option<string>>>)
    ensures r == InvertWithin(mapping, stageCount)
  {
    if stageCount < 0 || stageCount > 0xFFFF_FFFF {
      return Failure("Invalid array length");
    }
    var tokens := new Option<string>[stageCount](_ => None);
    var i := 0;
    while i < |mapping|
      invariant 0 <= i <= |mapping|
      invariant forall k :: 0 <= k < stageCount ==> tokens[k] == LastTokenFor(mapping[..i], k + 1)
    {
      var (token, stage) := mapping[i];
      if stage >= 1 && stage <= stageCount {
        tokens[stage - 1] := Some(token);
      }
      assert mapping[..i + 1][..i] == mapping[..i];
      i := i + 1;
    }
    assert mapping[..|mapping|] == mapping;
    // `tokens.map((token, idx) => token ?? letter)`: the callback runs on filled slots only,
    // where `token` is a string and the fallback never applies.
    var filled := tokens[..];
    var shown := seq(stageCount, k requires 0 <= k < stageCount => if filled[k].None? then None else Some(filled[k].value));
    assert shown == seq(stageCount, k requires 0 <= k < stageCount => LastTokenFor(mapping, k + 1));
    return Success(shown);
  }

  /** `labelTokensFromMapping`: the same inversion. */
  method LabelTokensFromMapping(mapping: Entries, stageCount: int) returns (r: Result<seq<Option<string>>>)
    ensures r == InvertWithin(mapping, stageCount)
  {
    r := InvertLabelMapping(mapping, stageCount);
  }

  /**
   * Slot k holds the token of the last entry for stage k + 1, and is a hole
   * exactly when no entry names that stage: holes are not filled with letters.
   */
  lemma InvertWithinSlots(mapping: Entries, stageCount: int, k: nat)
    requires 0 <= k < stageCount <= 0xFFFF_FFFF
    ensures var slot := InvertWithin(mapping, stageCount).value[k];
      (slot.None? <==> forall i :: 0 <= i < |mapping| ==> mapping[i].1 != k + 1) &&
      (slot.Some? ==> exists i :: 0 <= i < |mapping| && mapping[i] == (slot.value, k + 1))
  {
    LastTokenForNone(mapping, k + 1);
  }

  /** A token lands at its stage less one when no later entry has the same stage. */
  lemma InvertWithinPlaces(mapping: Entries, stageCount: int, i: nat)
    requires 0 <= stageCount <= 0xFFFF_FFFF
    requires i < |mapping| && 1 <= mapping[i].1 <= stageCount
    requires forall k :: i < k < |mapping| ==> mapping[k].1 != mapping[i].1
    ensures InvertWithin(mapping, stageCount).value[mapping[i].1 - 1] == Some(mapping[i].0)
  {
    LastTokenForLast(mapping, i);
  }

  lemma {:induction false} LastTokenForSkips(m1: Entries, e: (string, int), m2: Entries, stage: int)
    requires e.1 != stage
    ensures LastTokenFor(m1 + [e] + m2, stage) == LastTokenFor(m1 + m2, stage)
    decreases |m2|
  {
    if |m2| == 0 {
      assert (m1 + [e] + m2)[..|m1 + [e] + m2| - 1] == m1;
      assert m1 + m2 == m1;
    } else {
      var init := m2[..|m2| - 1];
      assert (m1 + [e] + m2)[..|m1 + [e] + m2| - 1] == m1 + [e] + init;
      assert (m1 + m2)[..|m1 + m2| - 1] == m1 + init;
      LastTokenForSkips(m1, e, init, stage);
    }
  }

  /** An entry whose stage is outside 1..stageCount changes nothing. */
  lemma InvertIgnoresOutOfRange(m1: Entries, e: (string, int), m2: Entries, stageCount: int)
    requires e.1 < 1 || e.1 > stageCount
    ensures InvertWithin(m1 + [e] + m2, stageCount) == InvertWithin(m1 + m2, stageCount)
  {
    if 0 <= stageCount <= 0xFFFF_FFFF {
      var a := InvertWithin(m1 + [e] + m2, stageCount).value;
      var b := InvertWithin(m1 + m2, stageCount).value;
      forall k | 0 <= k < stageCount ensures a[k] == b[k] {
        LastTokenForSkips(m1, e, m2, k + 1);
      }
      assert a == b;
    }
  }

  /**
   * When the largest stage is the stage count, this inversion and the one
   * sized by the largest stage (`experiments_scoring_prompts.ts`) agree.
   */
  lemma InvertAgreesWithMax(mapping: Entries, stageCount: int)
    requires |mapping| > 0 && stageCount == MaxOf(Scores(mapping)) && 0 <= stageCount <= 0xFFFF_FFFF
    ensures InvertWithin(mapping, stageCount) == InvertedByMax(mapping)
  {
  }

  /** The mapping generated for a scale of n inverts with no holes, each letter at its score less one. */
  lemma InvertGeneratedWithin(n: nat, seed: Option<int>, randoms: seq<real>)
    requires 1 <= n <= MaxScale && ValidDraws(randoms, n)
    ensures var m := LabelMappingOf(n, seed, randoms);
      |m| == n && forall i :: 0 <= i < n ==> 1 <= m[i].1 <= n
    ensures var m := LabelMappingOf(n, seed, randoms);
      var tokens := InvertWithin(m, n).value;
      (forall i :: 0 <= i < n ==> tokens[m[i].1 - 1] == Some(Letter(i))) &&
      (forall k :: 0 <= k < n ==> tokens[k].Some?)
  {
    var m := LabelMappingOf(n, seed, randoms);
    InvertGenerated(n, seed, randoms);
    assert MaxOf(Scores(m)) == n;
    InvertAgreesWithMax(m, n);
  }

  // ---------------------------------------------------------------------
  // buildRubricGenPrompt

  /** `Math.ceil(scale_size / 2)` when `scale_size % 2 === 1`, else `null`. */
  function Midpoint(scaleSize: int): (m: Option<nat>)
    ensures m.Some? <==> IsOdd(scaleSize)
    ensures m.Some? ==> 2 * m.value == scaleSize + 1
  {
    if IsOdd(scaleSize) then Some((scaleSize + 1) / 2) else None
  }

  function MidpointLine(stage: int): string
  {
    "- Stage " + IntToString(stage) + " must be \"Ambiguous / Mixed Evidence.\""
  }

  const NoMidpointLine := "- No midpoint stage -- every stage must commit to a direction."

  /** A line closing on a double quote, as the midpoint line does. */
  predicate EndsQuoted(line: string)
  {
    |line| > 0 && line[|line| - 1] == '"'
  }

  lemma LastChar(a: string, b: string)
    requires |b| > 0
    ensures (a + b)[|a + b| - 1] == b[|b| - 1]
  {
  }

  function DesignLine(concept: string, n: string): (line: string)
    ensures !EndsQuoted(line)
  {
    var line := "Design a " + n + "-stage evaluative rubric for assessing the degree to which evidence supports the concept: \"" + concept + "\".";
    LastChar("Design a " + n + "-stage evaluative rubric for assessing the degree to which evidence supports the concept: \"" + concept, "\".");
    line
  }

  function ExactlyLine(n: string): (line: string)
    ensures !EndsQuoted(line)
  {
    LastChar("- Exactly " + n + " stages, numbered 1 through " + n, ".");
    "- Exactly " + n + " stages, numbered 1 through " + n + "."
  }

  function StrengthLine(n: string): (line: string)
    ensures !EndsQuoted(line)
  {
    LastChar("- Stage 1 = weakest signal. Stage " + n, " = strongest signal.");
    "- Stage 1 = weakest signal. Stage " + n + " = strongest signal."
  }

  function TemplateLine(n: string): (line: string)
    ensures !EndsQuoted(line)
  {
    LastChar(n, ") <Stage Label> :: <criterion 1>; <criterion 2>; <criterion 3>");
    n + ") <Stage Label> :: <criterion 1>; <criterion 2>; <criterion 3>"
  }

  lemma MidpointLineQuoted(k: int)
    ensures EndsQuoted(MidpointLine(k))
  {
    LastChar("- Stage " + IntToString(k) + " must be \"Ambiguous / Mixed Evidence.", "\"");
  }

  /** `if (midpoint) ... else ...`: the line on the midpoint stage. */
  function MidpointRule(scaleSize: int): (line: string)
    ensures EndsQuoted(line) <==> IsOdd(scaleSize)
  {
    match Midpoint(scaleSize)
    case Some(m) => MidpointLineQuoted(m); MidpointLine(m)
    case None => assert NoMidpointLine[|NoMidpointLine| - 1] == '.'; NoMidpointLine
  }

  /** The generator prompt's lines, before `lines.join("\n")`. */
  function RubricGenLines(concept: string, scaleSize: int): (lines: seq<string>)
    ensures |lines| == 13
  {
    GenHeadLines(concept, IntToString(scaleSize)) + [MidpointRule(scaleSize)] + GenTailLines(IntToString(scaleSize))
  }

  /** The framing and the size rules, before the midpoint rule. */
  function GenHeadLines(concept: string, n: string): (lines: seq<string>)
    ensures |lines| == 5
  {
    [FramingLine, "", DesignLine(concept, n), ExactlyLine(n), StrengthLine(n)]
  }

  /** The remaining rules and the output template, after the midpoint rule. */
  function GenTailLines(n: string): (lines: seq<string>)
    ensures |lines| == 7
  {
    [CriteriaRule, AdjacentRule, "", FormatIntro, RubricHeading, FirstTemplate, TemplateLine(n)]
  }

  lemma HeadUnquoted(concept: string, n: string, i: nat)
    requires i < 5
    ensures !EndsQuoted(GenHeadLines(concept, n)[i])
  {
    FixedLinesUnquoted();
    var lines := GenHeadLines(concept, n);
    if i == 2 {
      assert lines[i] == DesignLine(concept, n);
    } else if i == 3 {
      assert lines[i] == ExactlyLine(n);
    } else if i == 4 {
      assert lines[i] == StrengthLine(n);
    }
  }

  lemma TailUnquoted(n: string, i: nat)
    requires i < 7
    ensures !EndsQuoted(GenTailLines(n)[i])
  {
    FixedLinesUnquoted();
    var lines := GenTailLines(n);
    if i == 6 {
      assert lines[i] == TemplateLine(n);
    }
  }

  const FramingLine := "Hypothetical framing: " + HypotheticalFrame
  const CriteriaRule := "- Each stage must include 3-5 observable criteria."
  const AdjacentRule := "- Adjacent stages must be clearly distinguishable."
  const FormatIntro := "Return reasoning first, then a RUBRIC block exactly like:"
  const FirstTemplate := "1) <Stage Label> :: <criterion 1>; <criterion 2>; <criterion 3>"
  const RubricHeading := "RUBRIC:"

  /** None of the fixed lines closes on a quote. */
  lemma FixedLinesUnquoted()
    ensures !EndsQuoted(FramingLine) && !EndsQuoted(CriteriaRule) && !EndsQuoted(AdjacentRule)
    ensures !EndsQuoted(FormatIntro) && !EndsQuoted(RubricHeading) && !EndsQuoted(FirstTemplate)
  {
    LastChar("Hypothetical framing: ", HypotheticalFrame);
    assert CriteriaRule[|CriteriaRule| - 1] == '.';
    assert AdjacentRule[|AdjacentRule| - 1] == '.';
    assert FormatIntro[|FormatIntro| - 1] == ':';
    assert RubricHeading[|RubricHeading| - 1] == ':';
    assert FirstTemplate[|FirstTemplate| - 1] == '>';
  }

  datatype Prompt = Prompt(systemPrompt: string, userPrompt: string)

  function RubricGenPrompt(concept: string, scaleSize: int): Prompt
  {
    Prompt("You are an expert rubric designer.", Join(RubricGenLines(concept, scaleSize), "\n"))
  }

  /** Only the midpoint rule can close on a quote. */
  lemma OnlyMidpointLineQuoted(concept: string, scaleSize: int, i: nat)
    requires i < 13 && i != 5
    ensures !EndsQuoted(RubricGenLines(concept, scaleSize)[i])
  {
    var head := GenHeadLines(concept, IntToString(scaleSize));
    var tail := GenTailLines(IntToString(scaleSize));
    PartAt(head, MidpointRule(scaleSize), tail, i);
    if i < 5 {
      HeadUnquoted(concept, IntToString(scaleSize), i);
    } else {
      TailUnquoted(IntToString(scaleSize), i - 6);
    }
  }

  /** For an even (or negative) size, no instruction line names a midpoint stage. */
  lemma NoMidpointNamed(concept: string, scaleSize: int, i: nat, k: int)
    requires !IsOdd(scaleSize) && i < 13
    ensures RubricGenLines(concept, scaleSize)[i] != MidpointLine(k)
  {
    var line := RubricGenLines(concept, scaleSize)[i];
    MidpointLineQuoted(k);
    if i != 5 {
      OnlyMidpointLineQuoted(concept, scaleSize, i);
    } else {
      MidpointRuleAt(concept, scaleSize);
    }
    assert !EndsQuoted(line);
  }

  /** An odd size names stage ⌈n/2⌉ as the midpoint. */
  lemma MidpointNamed(concept: string, scaleSize: int)
    requires IsOdd(scaleSize)
    ensures RubricGenLines(concept, scaleSize)[5] == MidpointLine((scaleSize + 1) / 2)
  {
    MidpointRuleAt(concept, scaleSize);
  }

  /** The midpoint rule is the sixth line. */
  lemma MidpointRuleAt(concept: string, scaleSize: int)
    ensures RubricGenLines(concept, scaleSize)[5] == MidpointRule(scaleSize)
  {
    ThirdPart(GenHeadLines(concept, IntToString(scaleSize)), MidpointRule(scaleSize), GenTailLines(IntToString(scaleSize)));
  }

  lemma ThirdPart<T>(head: seq<T>, x: T, tail: seq<T>)
    requires |head| == 5
    ensures (head + [x] + tail)[5] == x
  {
  }

  lemma PartAt<T>(head: seq<T>, x: T, tail: seq<T>, i: nat)
    requires i < |head| + 1 + |tail| && i != |head|
    ensures i < |head| ==> (head + [x] + tail)[i] == head[i]
    ensures i > |head| ==> (head + [x] + tail)[i] == tail[i - |head| - 1]
  {
  }

  /** The midpoint stage's letter is the scale strategy's midpoint label. */
  lemma MidpointLetter(scaleSize: int)
    requires IsOdd(scaleSize) && scaleSize <= MaxScale
    ensures ResolveScaleStrategy(ExperimentConfig(scaleSize, "", "single", false, "l0_raw", [])).midpointLabel ==
      Some(Letter(Midpoint(scaleSize).value - 1))
  {
    ScaleStrategySpec(ExperimentConfig(scaleSize, "", "single", false, "l0_raw", []));
  }

  /**
   * The rubric prompt names a midpoint stage exactly when the scale size is
   * odd (and then it is stage ⌈n/2⌉, by MidpointNamed).
   */
  lemma RubricGenMidpoint(concept: string, scaleSize: int)
    ensures (exists i, k :: 0 <= i < 13 && RubricGenLines(concept, scaleSize)[i] == MidpointLine(k)) <==> IsOdd(scaleSize)
  {
    if IsOdd(scaleSize) {
      MidpointNamed(concept, scaleSize);
    } else {
      forall i, k | 0 <= i < 13 ensures RubricGenLines(concept, scaleSize)[i] != MidpointLine(k) {
        NoMidpointNamed(concept, scaleSize, i, k);
      }
    }
  }

  // ---------------------------------------------------------------------
  // buildRubricCriticPrompt

  /** The numbered rubric block shared by both critic prompts. */
  function RubricBlock(stages: seq<Stage>): string
  {
    Join(seq(|stages|, k requires 0 <= k < |stages| => CriticRubricLine(k, stages[k])), "\n")
  }

  function RubricCriticLines(concept: string, stages: seq<Stage>): seq<string>
  {
    [ "Review the rubric for concept: \"" + concept + "\" and score its quality.",
      "Provide reasoning, then a final QUALITY line.",
      "RUBRIC:",
      RubricBlock(stages),
      "",
      "Output format:",
      "QUALITY: observability=<0-1>, discriminability=<0-1>" ]
  }

  function RubricCriticPrompt(concept: string, stages: seq<Stage>): Prompt
  {
    Prompt("You are a rubric quality auditor.", Join(RubricCriticLines(concept, stages), "\n"))
  }

  /** The numbered stage lines, one per stage in rubric order. */
  function CriticRubricLines(stages: seq<Stage>): (lines: seq<string>)
    ensures |lines| == |stages|
    ensures forall k :: 0 <= k < |stages| ==> lines[k] == CriticRubricLine(k, stages[k])
  {
    seq(|stages|, k requires 0 <= k < |stages| => CriticRubricLine(k, stages[k]))
  }

  /**
   * The critic prompt is one line per element: its three opening lines,
   * then stage k + 1 of the rubric on line 4 + k, then the output format.
   */
  lemma RubricCriticListsStages(concept: string, stages: seq<Stage>)
    requires |stages| > 0
    ensures RubricCriticPrompt(concept, stages).userPrompt ==
      Join(RubricCriticLines(concept, [])[..3] + CriticRubricLines(stages) + RubricCriticLines(concept, [])[4..], "\n")
  {
    var first := RubricCriticLines(concept, [])[..3];
    var last := RubricCriticLines(concept, [])[4..];
    assert RubricCriticLines(concept, stages) == first + [RubricBlock(stages)] + last;
    JoinFlatten(first, CriticRubricLines(stages), last);
  }

  lemma {:induction false} JoinAppend(a: seq<string>, b: seq<string>, sep: string)
    requires |a| > 0 && |b| > 0
    ensures Join(a + b, sep) == Join(a, sep) + sep + Join(b, sep)
    decreases |a|
  {
    if |a| == 1 {
      assert (a + b)[1..] == b;
    } else {
      assert (a + b)[1..] == a[1..] + b;
      JoinAppend(a[1..], b, sep);
    }
  }

  /** Joining the stage lines as one element is the same as joining them in the outer list. */
  lemma JoinFlatten(first: seq<string>, block: seq<string>, last: seq<string>)
    requires |first| > 0 && |block| > 0 && |last| > 0
    ensures Join(first + [Join(block, "\n")] + last, "\n") == Join(first + block + last, "\n")
  {
    JoinAppend(first + [Join(block, "\n")], last, "\n");
    JoinAppend(first, [Join(block, "\n")], "\n");
    JoinAppend(first + block, last, "\n");
    JoinAppend(first, block, "\n");
  }

  // ---------------------------------------------------------------------
  // buildScoreGenPrompt

  /** The content fields of an evidence row; the raw content is always present. */
  datatype Evidence = Evidence(
    l0RawContent: string,
    l1CleanedContent: Option<string>,
    l2NeutralizedContent: Option<string>,
    l3AbstractedContent: Option<string>)

  /** `evidence[contentField] ?? evidence.l0_raw_content`. */
  function EvidenceContent(e: Evidence, f: ContentField): (c: string)
    ensures c == e.l0RawContent || Some(c) in [e.l1CleanedContent, e.l2NeutralizedContent, e.l3AbstractedContent]
  {
    match f
    case L0RawContent => e.l0RawContent
    case L1CleanedContent => if e.l1CleanedContent.Some? then e.l1CleanedContent.value else e.l0RawContent
    case L2NeutralizedContent => if e.l2NeutralizedContent.Some? then e.l2NeutralizedContent.value else e.l0RawContent
    case L3AbstractedContent => if e.l3AbstractedContent.Some? then e.l3AbstractedContent.value else e.l0RawContent
  }

  /** The sample fields the prompt reads. */
  datatype Sample = Sample(labelMapping: Option<Entries>, displaySeed: Option<int>)

  datatype ScorePrompt = ScorePrompt(systemPrompt: string, userPrompt: string, labelTokens: seq<Option<string>>)

  /** `labelTokensBase`: the inverted mapping when labels are anonymised and the sample has one, else the letters. */
  function ScoreLabelTokens(anonLabel: bool, labelMapping: Option<Entries>, scale: ScaleStrategy): Result<seq<Option<string>>>
  {
    if anonLabel && labelMapping.Some? then InvertWithin(labelMapping.value, scale.stageCount)
    else Success(seq(|scale.letterLabels|, k requires 0 <= k < |scale.letterLabels| => Some(scale.letterLabels[k])))
  }

  /** Every part of the user prompt before the suffix. */
  function ScoreGenHead(rubricLines: seq<string>, content: string, instruction: string): seq<string>
  {
    [ "Hypothetical framing: " + HypotheticalFrame,
      "",
      "RUBRIC STAGES:\n" + Join(rubricLines, "\n"),
      "",
      "EVIDENCE:\n" + content,
      "",
      instruction ]
  }

  /** The rubric lines in display order, shown under their tokens. */
  function ScoreRubricLines(stages: seq<Stage>, tokens: seq<Option<string>>, scale: ScaleStrategy,
                            randomization: RandomizationStrategy, sample: Sample, randoms: seq<real>): (lines: seq<string>)
    requires ValidDraws(randoms, |stages|)
  {
    var staged := StagedOf(stages, tokens, scale.letterLabels);
    RubricLines(DisplayOrder(staged, randomization.rubricOrderShuffle, sample.displaySeed, randoms), randomization.hideLabelName, "-")
  }

  /** The label tokens the configuration and the sample call for. */
  function ConfigTokens(config: ExperimentConfig, sample: Sample): Result<seq<Option<string>>>
    requires config.scaleSize <= MaxScale
  {
    ScoreLabelTokens(ResolveRandomizationStrategy(config).anonLabel, sample.labelMapping, ResolveScaleStrategy(config))
  }

  /** The user prompt: the head, then the suffix for the scoring method and the tokens. */
  function ScoreUserPrompt(config: ExperimentConfig, evidence: Evidence, stages: seq<Stage>, sample: Sample,
                           randoms: seq<real>, scoring: ScoringStrategy, tokens: seq<Option<string>>): string
    requires config.scaleSize <= MaxScale && ValidDraws(randoms, |stages|)
  {
    var lines := ScoreRubricLines(stages, tokens, ResolveScaleStrategy(config), ResolveRandomizationStrategy(config), sample, randoms);
    var content := EvidenceContent(evidence, ResolveEvidenceStrategy(config));
    Join(ScoreGenHead(lines, content, SystemInstruction(scoring)) + [PromptSuffix(scoring, tokens)], "\n")
  }

  function ScoreGenPrompt(config: ExperimentConfig, evidence: Evidence, stages: seq<Stage>, sample: Sample, randoms: seq<real>): Result<ScorePrompt>
    requires config.scaleSize <= MaxScale && ValidDraws(randoms, |stages|)
  {
    match ResolveScoringStrategy(config)
    case Failure(e) => Failure(e)
    case Success(scoring) =>
      match ConfigTokens(config, sample)
      case Failure(e) => Failure(e)
      case Success(tokens) =>
        Success(ScorePrompt("You are a careful evaluator of evidence against a rubric.",
          ScoreUserPrompt(config, evidence, stages, sample, randoms, scoring, tokens), tokens))
  }

  /**
   * The tokens fail only for a negative scale when anonymised labels invert a
   * mapping; they are the inverted mapping exactly when anonymisation is on
   * and a mapping exists, and the letters otherwise.
   */
  lemma ConfigTokensSpec(config: ExperimentConfig, sample: Sample)
    requires config.scaleSize <= MaxScale
    ensures var anon := "anonymize_stages" in config.randomizations && sample.labelMapping.Some?;
      ConfigTokens(config, sample).Failure? <==> anon && config.scaleSize < 0
    ensures var anon := "anonymize_stages" in config.randomizations && sample.labelMapping.Some?;
      ConfigTokens(config, sample).Success? ==>
        (anon ==> ConfigTokens(config, sample).value == InvertWithin(sample.labelMapping.value, config.scaleSize).value) &&
        (!anon ==> (|ConfigTokens(config, sample).value| == LengthOf(config.scaleSize) &&
          forall k :: 0 <= k < LengthOf(config.scaleSize) ==> ConfigTokens(config, sample).value[k] == Some(Letter(k))))
  {
    RandomizationBySet(config, config);
    ScaleStrategySpec(config);
  }

  /**
   * The prompt fails only for an unknown scoring method or when the tokens
   * fail; otherwise it carries those tokens and its user prompt ends with the
   * scoring suffix listing them.
   */
  lemma ScoreGenPromptSpec(config: ExperimentConfig, evidence: Evidence, stages: seq<Stage>, sample: Sample, randoms: seq<real>)
    requires config.scaleSize <= MaxScale && ValidDraws(randoms, |stages|)
    ensures ScoreGenPrompt(config, evidence, stages, sample, randoms).Failure? <==>
      ResolveScoringStrategy(config).Failure? || ConfigTokens(config, sample).Failure?
    ensures ScoreGenPrompt(config, evidence, stages, sample, randoms).Success? ==>
      ScoreGenPrompt(config, evidence, stages, sample, randoms).value.labelTokens == ConfigTokens(config, sample).value
    ensures var r := ScoreGenPrompt(config, evidence, stages, sample, randoms);
      r.Success? ==> exists head :: r.value.userPrompt == head + "\n" + PromptSuffix(ResolveScoringStrategy(config).value, r.value.labelTokens)
  {
    var r := ScoreGenPrompt(config, evidence, stages, sample, randoms);
    if r.Success? {
      ScoreUserPromptEnds(config, evidence, stages, sample, randoms, ResolveScoringStrategy(config).value, r.value.labelTokens);
    }
  }

  lemma ScoreUserPromptEnds(config: ExperimentConfig, evidence: Evidence, stages: seq<Stage>, sample: Sample,
                            randoms: seq<real>, scoring: ScoringStrategy, tokens: seq<Option<string>>)
    requires config.scaleSize <= MaxScale && ValidDraws(randoms, |stages|)
    ensures exists head :: (ScoreUserPrompt(config, evidence, stages, sample, randoms, scoring, tokens) ==
      head + "\n" + PromptSuffix(scoring, tokens))
  {
    var lines := ScoreRubricLines(stages, tokens, ResolveScaleStrategy(config), ResolveRandomizationStrategy(config), sample, randoms);
    var head := ScoreGenHead(lines, EvidenceContent(evidence, ResolveEvidenceStrategy(config)), SystemInstruction(scoring));
    JoinSnoc(head, PromptSuffix(scoring, tokens), "\n");
  }

  /**
   * The rubric block shows every stage once: in stage order when the order
   * is not randomised, and as a permutation of that order when it is.
   */
  lemma ScoreRubricLinesDisplayed(stages: seq<Stage>, tokens: seq<Option<string>>, scale: ScaleStrategy,
                                  randomization: RandomizationStrategy, sample: Sample, randoms: seq<real>)
    requires ValidDraws(randoms, |stages|)
    ensures var inOrder := RubricLines(StagedOf(stages, tokens, scale.letterLabels), randomization.hideLabelName, "-");
      multiset(ScoreRubricLines(stages, tokens, scale, randomization, sample, randoms)) == multiset(inOrder) &&
      (!randomization.rubricOrderShuffle ==> ScoreRubricLines(stages, tokens, scale, randomization, sample, randoms) == inOrder)
  {
    var staged := StagedOf(stages, tokens, scale.letterLabels);
    RubricLinesDisplayed(staged, randomization.rubricOrderShuffle, randomization.hideLabelName, "-", sample.displaySeed, randoms);
  }

  /**
   * With label text hidden, the scorer's prompt does not depend on the
   * stage labels: two rubrics with the same criteria give the same prompt.
   */
  lemma HiddenLabelsDoNotReachPrompt(config: ExperimentConfig, evidence: Evidence, stages1: seq<Stage>, stages2: seq<Stage>,
                                     sample: Sample, randoms: seq<real>)
    requires config.scaleSize <= MaxScale && ValidDraws(randoms, |stages1|)
    requires "hide_label_text" in config.randomizations
    requires |stages1| == |stages2| && forall k :: 0 <= k < |stages1| ==> stages1[k].criteria == stages2[k].criteria
    ensures ScoreGenPrompt(config, evidence, stages1, sample, randoms) == ScoreGenPrompt(config, evidence, stages2, sample, randoms)
  {
    RandomizationBySet(config, config);
    var randomization := ResolveRandomizationStrategy(config);
    var scale := ResolveScaleStrategy(config);
    match ScoreLabelTokens(randomization.anonLabel, sample.labelMapping, scale)
    case Failure(_) =>
    case Success(tokens) =>
      var staged1 := StagedOf(stages1, tokens, scale.letterLabels);
      var staged2 := StagedOf(stages2, tokens, scale.letterLabels);
      assert RubricLines(staged1, true, "-") == RubricLines(staged2, true, "-") by {
        forall k | 0 <= k < |staged1| ensures RubricLine(staged1[k], true, "-") == RubricLine(staged2[k], true, "-") {
          HiddenLabelNotShown(staged1[k].token, stages1[k].stageLabel, stages2[k].stageLabel, stages1[k].criteria, "-");
          assert staged1[k] == StagedLine(Stage(stages1[k].stageLabel, stages1[k].criteria), staged1[k].token);
          assert staged2[k] == StagedLine(Stage(stages2[k].stageLabel, stages1[k].criteria), staged1[k].token);
        }
      }
      var lines1 := ScoreRubricLines(stages1, tokens, scale, randomization, sample, randoms);
      var lines2 := ScoreRubricLines(stages2, tokens, scale, randomization, sample, randoms);
      if randomization.rubricOrderShuffle {
        var pick := ShufflePicks(|stages1|, sample.displaySeed, randoms);
        FisherYatesLines(staged1, true, "-", Top(|stages1|), pick);
        FisherYatesLines(staged2, true, "-", Top(|stages1|), pick);
      }
      assert lines1 == lines2;
  }
}
