/**
 * Strategy resolution for a run (`run_strategies.ts`): the experiment
 * configuration decides the randomisation flags, the scale's letter labels
 * and midpoint, the evidence field shown to the scorer, and the scoring
 * method's prompt suffix, instruction and verdict parser.
 */
module RunStrategies {
  import opened Wrappers
  import opened JsStrings
  import opened LabelRandomization
  import opened ScoringParsers
  import opened ScoringPrompts

  /** The fields of `ExperimentConfig` the strategies read; `method` and `evidence_view` stay strings. */
  datatype ExperimentConfig = ExperimentConfig(
    scaleSize: int,
    concept: string,
    scoringMethod: string,
    abstainEnabled: bool,
    evidenceView: string,
    randomizations: seq<string>)

  // ---------------------------------------------------------------------
  // resolveRandomizationStrategy

  datatype RandomizationStrategy = RandomizationStrategy(anonLabel: bool, rubricOrderShuffle: bool, hideLabelName: bool)

  /** `new Set(config.scoring_config.randomizations)` and three `has` lookups. */
  function ResolveRandomizationStrategy(config: ExperimentConfig): RandomizationStrategy
  {
    var modes := set m | m in config.randomizations;
    RandomizationStrategy("anonymize_stages" in modes, "shuffle_rubric_order" in modes, "hide_label_text" in modes)
  }

  /**
   * Each flag is on exactly when its mode is listed, so the order and the
   * repetitions of the list do not matter.
   */
  lemma RandomizationBySet(c1: ExperimentConfig, c2: ExperimentConfig)
    ensures ResolveRandomizationStrategy(c1).anonLabel <==> "anonymize_stages" in c1.randomizations
    ensures ResolveRandomizationStrategy(c1).rubricOrderShuffle <==> "shuffle_rubric_order" in c1.randomizations
    ensures ResolveRandomizationStrategy(c1).hideLabelName <==> "hide_label_text" in c1.randomizations
    ensures (set m | m in c1.randomizations) == (set m | m in c2.randomizations) ==>
      ResolveRandomizationStrategy(c1) == ResolveRandomizationStrategy(c2)
  {
  }

  // ---------------------------------------------------------------------
  // resolveScaleStrategy

  datatype ScaleStrategy = ScaleStrategy(stageCount: int, hasMidpoint: bool, midpointLabel: Option<string>, letterLabels: seq<string>)

  /** `n % 2 === 1`: JavaScript's remainder, so a negative size is never odd. */
  predicate IsOdd(n: int)
  {
    TruncRem(n, 2) == 1
  }

  /** `Array.from({ length: n })` makes no element for a negative length. */
  function LengthOf(n: int): nat
  {
    if n < 0 then 0 else n
  }

  function ResolveScaleStrategy(config: ExperimentConfig): (s: ScaleStrategy)
    requires config.scaleSize <= MaxScale
  {
    var n := config.scaleSize;
    var letters := Letters(LengthOf(n));
    ScaleStrategy(n, IsOdd(n), if IsOdd(n) then Some(letters[n / 2]) else None, letters)
  }

  /**
   * The scale names its n stages A, B, ...; it has a midpoint exactly when n
   * is positive and odd, and the midpoint is the letter of stage ⌈n/2⌉.
   */
  lemma ScaleStrategySpec(config: ExperimentConfig)
    requires config.scaleSize <= MaxScale
    ensures var s := ResolveScaleStrategy(config);
      s.stageCount == config.scaleSize &&
      |s.letterLabels| == LengthOf(config.scaleSize) &&
      forall i :: 0 <= i < |s.letterLabels| ==> s.letterLabels[i] == Letter(i)
    ensures var s := ResolveScaleStrategy(config);
      s.hasMidpoint <==> config.scaleSize > 0 && config.scaleSize % 2 == 1
    ensures var s := ResolveScaleStrategy(config);
      s.hasMidpoint <==> s.midpointLabel.Some?
    ensures var s := ResolveScaleStrategy(config);
      s.hasMidpoint ==> s.midpointLabel == Some(Letter((config.scaleSize + 1) / 2 - 1))
  {
  }

  // ---------------------------------------------------------------------
  // resolveEvidenceStrategy

  /** The evidence record's content fields. */
  datatype ContentField = L0RawContent | L1CleanedContent | L2NeutralizedContent | L3AbstractedContent

  function FieldName(f: ContentField): string
  {
    match f
    case L0RawContent => "l0_raw_content"
    case L1CleanedContent => "l1_cleaned_content"
    case L2NeutralizedContent => "l2_neutralized_content"
    case L3AbstractedContent => "l3_abstracted_content"
  }

  /** The `switch` on `evidence_view`, whose `default` is the raw content. */
  function ResolveEvidenceStrategy(config: ExperimentConfig): ContentField
  {
    var v := config.evidenceView;
    if v == "l1_cleaned" then L1CleanedContent
    else if v == "l2_neutralized" then L2NeutralizedContent
    else if v == "l3_abstracted" then L3AbstractedContent
    else L0RawContent
  }

  /**
   * A canonical view reads the field named after it; any other value,
   * aliases included (nothing normalises them here), reads the raw content.
   */
  lemma EvidenceFieldSpec(config: ExperimentConfig)
    ensures config.evidenceView in ["l0_raw", "l1_cleaned", "l2_neutralized", "l3_abstracted"] ==>
      FieldName(ResolveEvidenceStrategy(config)) == config.evidenceView + "_content"
    ensures config.evidenceView !in ["l1_cleaned", "l2_neutralized", "l3_abstracted"] ==>
      ResolveEvidenceStrategy(config) == L0RawContent
  {
  }

  // ---------------------------------------------------------------------
  // resolveScoringStrategy

  datatype ScoringMethod = Single | Subset

  /** A resolved strategy: the closures capture the method and `abstainEnabled`. */
  datatype ScoringStrategy = ScoringStrategy(kind: ScoringMethod, abstainEnabled: bool)

  /** `strategies[config.scoring_config.method]`, throwing for a method that is not a key. */
  function ResolveScoringStrategy(config: ExperimentConfig): (r: Result<ScoringStrategy>)
    ensures r.Success? <==> config.scoringMethod == "single" || config.scoringMethod == "subset"
    ensures r.Success? ==> r.value.abstainEnabled == config.abstainEnabled
    ensures r.Success? ==> (r.value.kind == Single <==> config.scoringMethod == "single")
    ensures r.Failure? ==> r.error == "Unknown scoring method \"" + config.scoringMethod + "\". Allowed: single, subset"
  {
    if config.scoringMethod == "single" then Success(ScoringStrategy(Single, config.abstainEnabled))
    else if config.scoringMethod == "subset" then Success(ScoringStrategy(Subset, config.abstainEnabled))
    else Failure("Unknown scoring method \"" + config.scoringMethod + "\". Allowed: single, subset")
  }

  /** How a label prints inside a template or a `join`: a hole of the array prints as nothing. */
  function HoleText(t: Option<string>): string
  {
    match t
    case None => ""
    case Some(l) => l
  }

  /** `labels.map((label) => `VERDICT: ${label}`)`: `map` skips a hole, which `join` prints as an empty line. */
  function OptionLines(labels: seq<Option<string>>): (lines: seq<string>)
    ensures |lines| == |labels|
  {
    seq(|labels|, k requires 0 <= k < |labels| => if labels[k].None? then "" else "VERDICT: " + labels[k].value)
  }

  const SingleHeader := "Final line must be exactly one of:"
  const AbstainOption := "VERDICT: ABSTAIN"
  const SubsetAbstainTail := " or VERDICT: ABSTAIN"

  function SubsetBase(labels: seq<Option<string>>): string
  {
    "Final line must be: VERDICT: <comma-separated IDs from: " +
      Join(seq(|labels|, k requires 0 <= k < |labels| => HoleText(labels[k])), ", ") + ">"
  }

  /** `buildPromptSuffix(labels)`. */
  function PromptSuffix(s: ScoringStrategy, labels: seq<Option<string>>): string
  {
    match s.kind
    case Single =>
      var options := Join(OptionLines(labels), "\n");
      if !s.abstainEnabled then SingleHeader + "\n" + options
      else SingleHeader + "\n" + options + "\n" + AbstainOption
    case Subset =>
      if !s.abstainEnabled then SubsetBase(labels) else SubsetBase(labels) + SubsetAbstainTail
  }

  /** `systemInstruction`. */
  function SystemInstruction(s: ScoringStrategy): string
  {
    match s.kind
    case Single => if s.abstainEnabled then SingleInstruction else SingleNoAbstainInstruction
    case Subset => SubsetInstruction + (if s.abstainEnabled then "" else NoAbstainTail)
  }

  const SingleInstruction := "Conclude with a single verdict from the options above."
  const SingleNoAbstainInstruction := "Conclude with a single verdict from the options above (no abstentions)."
  const SubsetInstruction := "List ALL stage identifiers whose criteria are supported by the evidence. " +
    "If multiple stages apply, include them all (do not collapse to a single stage)."
  const NoAbstainTail := " Do not abstain."

  /** The lines of the single-verdict suffix: the header, one option per label, then ABSTAIN if allowed. */
  function SingleSuffixLines(labels: seq<Option<string>>, abstainEnabled: bool): seq<string>
  {
    [SingleHeader] + (if |labels| == 0 then [""] else OptionLines(labels)) + (if abstainEnabled then [AbstainOption] else [])
  }

  lemma {:induction false} JoinCons(t: string, ts: seq<string>, sep: string)
    requires |ts| > 0
    ensures Join([t] + ts, sep) == t + sep + Join(ts, sep)
  {
    assert ([t] + ts)[1..] == ts;
  }

  /**
   * Split at its newlines, the single-verdict suffix is its header, the
   * options in label order, and the ABSTAIN option when abstaining is allowed.
   */
  lemma SingleSuffixSplits(labels: seq<Option<string>>, abstainEnabled: bool)
    requires forall k :: 0 <= k < |labels| && labels[k].Some? ==> '\n' !in labels[k].value
    ensures Split(PromptSuffix(ScoringStrategy(Single, abstainEnabled), labels), '\n') ==
      SingleSuffixLines(labels, abstainEnabled)
  {
    SingleSuffixJoin(labels, abstainEnabled);
    SingleSuffixLinesPlain(labels, abstainEnabled);
    SplitJoin(SingleSuffixLines(labels, abstainEnabled), '\n');
  }

  /** The single-verdict suffix is its lines joined with newlines. */
  lemma SingleSuffixJoin(labels: seq<Option<string>>, abstainEnabled: bool)
    ensures PromptSuffix(ScoringStrategy(Single, abstainEnabled), labels) ==
      Join(SingleSuffixLines(labels, abstainEnabled), "\n")
  {
    var options := OptionLines(labels);
    var middle := if |labels| == 0 then [""] else options;
    assert Join(middle, "\n") == Join(options, "\n");
    JoinCons(SingleHeader, middle, "\n");
    var head := [SingleHeader] + middle;
    if abstainEnabled {
      JoinSnoc(head, AbstainOption, "\n");
      assert SingleSuffixLines(labels, abstainEnabled) == head + [AbstainOption];
    } else {
      assert SingleSuffixLines(labels, abstainEnabled) == head;
    }
  }

  /** No line of the suffix holds a newline. */
  lemma SingleSuffixLinesPlain(labels: seq<Option<string>>, abstainEnabled: bool)
    requires forall k :: 0 <= k < |labels| && labels[k].Some? ==> '\n' !in labels[k].value
    ensures forall k :: 0 <= k < |SingleSuffixLines(labels, abstainEnabled)| ==>
      '\n' !in SingleSuffixLines(labels, abstainEnabled)[k]
  {
    var options := OptionLines(labels);
    var middle := if |labels| == 0 then [""] else options;
    var lines := SingleSuffixLines(labels, abstainEnabled);
    forall k | 0 <= k < |lines| ensures '\n' !in lines[k] {
      if 0 < k <= |middle| && |labels| > 0 {
        assert lines[k] == options[k - 1];
      }
    }
  }

  lemma PrefixCancel(p: string, a: string, b: string)
    requires p + a == p + b
    ensures a == b
  {
    assert a == (p + a)[|p|..];
    assert b == (p + b)[|p|..];
  }

  /** An option line is the ABSTAIN option only for a label "ABSTAIN". */
  lemma OptionLineAbstain(labels: seq<Option<string>>, k: nat)
    requires k < |labels| && OptionLines(labels)[k] == AbstainOption
    ensures labels[k] == Some("ABSTAIN")
  {
    assert labels[k].Some?;
    PrefixCancel("VERDICT: ", labels[k].value, "ABSTAIN");
  }

  /**
   * The single-verdict suffix offers `VERDICT: ABSTAIN` exactly when
   * abstaining is allowed, unless a label is itself "ABSTAIN".
   */
  lemma SingleSuffixOffersAbstain(labels: seq<Option<string>>, abstainEnabled: bool)
    requires forall k :: 0 <= k < |labels| && labels[k].Some? ==> '\n' !in labels[k].value
    requires forall k :: 0 <= k < |labels| ==> labels[k] != Some("ABSTAIN")
    ensures AbstainOption in Split(PromptSuffix(ScoringStrategy(Single, abstainEnabled), labels), '\n') <==> abstainEnabled
  {
    SingleSuffixSplits(labels, abstainEnabled);
    var lines := SingleSuffixLines(labels, abstainEnabled);
    var middle := if |labels| == 0 then [""] else OptionLines(labels);
    assert lines == [SingleHeader] + middle + (if abstainEnabled then [AbstainOption] else []);
    if abstainEnabled {
      assert lines[|lines| - 1] == AbstainOption;
    } else {
      assert lines == [SingleHeader] + middle;
      assert SingleHeader != AbstainOption by { assert SingleHeader[0] != AbstainOption[0]; }
      forall k | 0 <= k < |middle| ensures middle[k] != AbstainOption {
        if |labels| > 0 && middle[k] == AbstainOption {
          OptionLineAbstain(labels, k);
        }
      }
      assert AbstainOption !in middle;
    }
  }

  /** The subset suffix ends in ` or VERDICT: ABSTAIN` exactly when abstaining is allowed, and in `>` otherwise. */
  lemma SubsetSuffixOffersAbstain(labels: seq<Option<string>>, abstainEnabled: bool)
    ensures var s := PromptSuffix(ScoringStrategy(Subset, abstainEnabled), labels);
      |s| >= |SubsetAbstainTail| && (s[|s| - |SubsetAbstainTail|..] == SubsetAbstainTail <==> abstainEnabled)
    ensures var s := PromptSuffix(ScoringStrategy(Subset, abstainEnabled), labels);
      !abstainEnabled ==> s[|s| - 1] == '>'
  {
    var base := SubsetBase(labels);
    var s := PromptSuffix(ScoringStrategy(Subset, abstainEnabled), labels);
    assert base[|base| - 1] == '>';
    if abstainEnabled {
      assert s == base + SubsetAbstainTail;
      assert s[|s| - |SubsetAbstainTail|..] == SubsetAbstainTail;
    } else {
      assert s[|s| - |SubsetAbstainTail|..][|SubsetAbstainTail| - 1] == '>';
    }
  }

  /** The instruction tells the model not to abstain exactly when abstaining is disabled. */
  lemma InstructionForbidsAbstain(s: ScoringStrategy)
    ensures var t := SystemInstruction(s);
      !s.abstainEnabled <==>
        match s.kind
        case Single => t == SingleNoAbstainInstruction
        case Subset => |t| >= 16 && t[|t| - 16..] == " Do not abstain."
  {
    if s.kind == Single {
      SingleInstructionsDiffer();
    } else {
      SubsetInstructionEnd();
      if s.abstainEnabled {
        SuffixDiffers(SubsetInstruction, NoAbstainTail);
      } else {
        SuffixOfConcat(SubsetInstruction, NoAbstainTail);
      }
    }
  }

  lemma SingleInstructionsDiffer()
    ensures SingleInstruction != SingleNoAbstainInstruction
  {
    assert |SingleInstruction| == 54 && |SingleNoAbstainInstruction| == 71;
  }

  lemma SubsetInstructionEnd()
    ensures |SubsetInstruction| >= 16 && SubsetInstruction[|SubsetInstruction| - 2] == ')'
  {
    var a := "List ALL stage identifiers whose criteria are supported by the evidence. ";
    var b := "If multiple stages apply, include them all (do not collapse to a single stage).";
    assert |b| >= 16 && b[|b| - 2] == ')';
    assert SubsetInstruction[|SubsetInstruction| - 2] == b[|b| - 2];
  }

  lemma SuffixOfConcat(a: string, b: string)
    ensures (a + b)[|a + b| - |b|..] == b
  {
  }

  /** A text whose last but one character is `)` does not end with ` Do not abstain.`. */
  lemma SuffixDiffers(t: string, tail: string)
    requires |t| >= 16 && t[|t| - 2] == ')' && tail == NoAbstainTail
    ensures t[|t| - 16..] != tail
  {
    assert t[|t| - 16..][14] == ')';
    assert tail[14] == 'n';
  }

  /** `parseVerdict`: the strict parser of the method, with an abstention refused when abstaining is disabled. */
  function ParseVerdict(s: ScoringStrategy, raw: string, labelMapping: LabelMapping): Result<Verdict>
  {
    var parsed := match s.kind
      case Single => SingleVerdictOf(raw, labelMapping)
      case Subset => SubsetVerdictOf(raw, labelMapping);
    if parsed.Success? && !s.abstainEnabled && parsed.value.abstained then Failure("Abstain not permitted by config")
    else parsed
  }

  /**
   * With abstaining allowed the strategy is the bare parser; with it
   * disabled, the only new error is "Abstain not permitted by config",
   * raised exactly when the parser reports an abstention, and no accepted
   * verdict is an abstention.
   */
  lemma ParseVerdictSpec(s: ScoringStrategy, raw: string, labelMapping: LabelMapping)
    ensures var parsed := if s.kind == Single then SingleVerdictOf(raw, labelMapping) else SubsetVerdictOf(raw, labelMapping);
      (s.abstainEnabled ==> ParseVerdict(s, raw, labelMapping) == parsed) &&
      (!s.abstainEnabled ==>
        (ParseVerdict(s, raw, labelMapping) == Failure("Abstain not permitted by config") <==>
          (parsed.Success? && parsed.value.abstained) || parsed == Failure("Abstain not permitted by config")) &&
        (parsed.Success? && !parsed.value.abstained ==> ParseVerdict(s, raw, labelMapping) == parsed) &&
        (parsed.Failure? ==> ParseVerdict(s, raw, labelMapping) == parsed))
    ensures ParseVerdict(s, raw, labelMapping).Success? && !s.abstainEnabled ==>
      !ParseVerdict(s, raw, labelMapping).value.abstained
  {
  }

  /** A response whose last verdict line says ABSTAIN is refused when abstaining is disabled. */
  lemma AbstentionRefused(s: ScoringStrategy, raw: string, labelMapping: LabelMapping)
    requires !s.abstainEnabled
    requires LastVerdictLine(raw).Success? && Upper(LastVerdictLine(raw).value.line) == "ABSTAIN"
    ensures ParseVerdict(s, raw, labelMapping) == Failure("Abstain not permitted by config")
  {
  }
}
