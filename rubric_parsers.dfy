/**
 * The rubric and QUALITY parsers.  The rubric block parser is the same in
 * `run_parsers.ts` (which numbers the stages), in
 * `utils/rubric_parser.ts` and in `stages/rubric/parsers/rubric_parser.ts`;
 * the QUALITY parser of the first (and of the stages file) takes the last
 * match and demands reasoning before it, that of `utils` takes the first
 * match and returns only the two scores.  A thrown error is a `Failure`
 * carrying its message.
 */
module RubricParsers {
  import opened Wrappers
  import opened JsStrings
  import opened RegexScan
  import opened ResponsePatterns

  datatype Stage = Stage(stageLabel: string, criteria: seq<string>)

  datatype Rubric = Rubric(reasoning: string, stages: seq<Stage>)

  /** A stage of `run_parsers.ts`, which carries `stage_number`. */
  datatype NumberedStage = NumberedStage(stageNumber: int, stageLabel: string, criteria: seq<string>)

  datatype NumberedRubric = NumberedRubric(reasoning: string, stages: seq<NumberedStage>)

  datatype QualityMatch = QualityMatch(observability: string, discriminability: string, index: nat)

  datatype Quality = Quality(observabilityScore: real, discriminabilityScore: real, reasoning: string)

  datatype QualityScores = QualityScores(observabilityScore: real, discriminabilityScore: real)

  // ---------------------------------------------------------------------
  // parseRubricResponse

  /** One non-blank rubric line, in the `lines.map` callback. */
  function StageOf(line: string): Result<Stage>
  {
    match RubricLineGroups(line)
    case None => Failure("Invalid rubric line: " + line)
    case Some(groups) =>
      var stageLabel := Trim(groups.0);
      var criteria := NonBlankTrimmed(Split(groups.1, ';'));
      if |criteria| < 3 || |criteria| > 5 then
        Failure("Invalid criteria count (" + IntToString(|criteria|) + ") for stage \"" + stageLabel + "\"")
      else Success(Stage(stageLabel, criteria))
  }

  /** `lines.map(...)`: the first line that fails decides the error. */
  function StagesOf(lines: seq<string>): (r: Result<seq<Stage>>)
    ensures r.Success? ==> |r.value| == |lines|
  {
    if |lines| == 0 then Success([])
    else
      match StageOf(lines[0])
      case Failure(e) => Failure(e)
      case Success(st) =>
        match StagesOf(lines[1..])
        case Failure(e) => Failure(e)
        case Success(rest) => Success([st] + rest)
  }

  /** The trimmed, non-blank lines of the rubric block. */
  function BlockLines(block: string): seq<string>
  {
    NonBlankTrimmed(Split(Trim(block), '\n'))
  }

  /** `raw.match(/(?:^|\n)RUBRIC:\s*\n([\s\S]+)$/i)`. */
  function RubricMarker(raw: string): Option<Hit>
  {
    Exec(RubricMarkerAt, raw, 0)
  }

  /** parseRubricResponse of the two `rubric_parser.ts` files. */
  function RubricOf(raw: string, scaleSize: int): Result<Rubric>
  {
    match RubricMarker(raw)
    case None => Failure("Failed to find RUBRIC block: " + raw)
    case Some(h) =>
      var reasoning := Trim(raw[..h.index]);
      if reasoning == "" then Failure("Missing reasoning before RUBRIC block")
      else
        match StagesOf(BlockLines(Group(h, 0)))
        case Failure(e) => Failure(e)
        case Success(stages) =>
          if |stages| != scaleSize then
            Failure("Expected " + IntToString(scaleSize) + " stages, received " + IntToString(|stages|))
          else Success(Rubric(reasoning, stages))
  }

  /** Stage i gets `stage_number` i + 1. */
  function Numbered(stages: seq<Stage>): (r: seq<NumberedStage>)
    ensures |r| == |stages|
    ensures forall i :: 0 <= i < |r| ==>
      r[i] == NumberedStage(i + 1, stages[i].stageLabel, stages[i].criteria)
  {
    seq(|stages|, i requires 0 <= i < |stages| => NumberedStage(i + 1, stages[i].stageLabel, stages[i].criteria))
  }

  /** parseRubricResponse of `run_parsers.ts`. */
  function NumberedRubricOf(raw: string, scaleSize: int): Result<NumberedRubric>
  {
    match RubricOf(raw, scaleSize)
    case Failure(e) => Failure(e)
    case Success(r) => Success(NumberedRubric(r.reasoning, Numbered(r.stages)))
  }

  /** Every stage has a trimmed label and three to five trimmed, non-empty criteria without `;`. */
  predicate WellFormedStage(st: Stage)
  {
    3 <= |st.criteria| <= 5 && Trimmed(st.stageLabel) &&
    forall k :: 0 <= k < |st.criteria| ==> |st.criteria[k]| > 0 && Trimmed(st.criteria[k]) && ';' !in st.criteria[k]
  }

  /** A line gives a stage exactly when it has the `N) label :: criteria` form and three to five criteria. */
  lemma StageOfSpec(line: string)
    ensures StageOf(line).Success? <==>
      RubricLineGroups(line).Some? && 3 <= |NonBlankTrimmed(Split(RubricLineGroups(line).value.1, ';'))| <= 5
    ensures StageOf(line).Success? ==> WellFormedStage(StageOf(line).value)
  {
    if StageOf(line).Success? {
      var groups := RubricLineGroups(line).value;
      StageWellFormed(groups.0, groups.1);
    }
  }

  /** The trimmed label and the trimmed non-blank `;`-pieces of a line form a well-formed stage when there are three to five. */
  lemma StageWellFormed(labelText: string, criteriaText: string)
    requires 3 <= |NonBlankTrimmed(Split(criteriaText, ';'))| <= 5
    ensures WellFormedStage(Stage(Trim(labelText), NonBlankTrimmed(Split(criteriaText, ';'))))
  {
    var parts := Split(criteriaText, ';');
    NonBlankTrimmedEnds(parts);
    NonBlankTrimmedFrom(parts, ';');
    TrimEnds(labelText);
  }

  /** The stages are the lines' stages, in order; the first bad line is the error. */
  lemma StagesOfSpec(lines: seq<string>)
    ensures StagesOf(lines).Success? <==> forall i :: 0 <= i < |lines| ==> StageOf(lines[i]).Success?
    ensures StagesOf(lines).Success? ==>
      forall i :: 0 <= i < |lines| ==> StagesOf(lines).value[i] == StageOf(lines[i]).value
  {
    StagesOfSucceeds(lines);
    if StagesOf(lines).Success? {
      StagesOfValues(lines);
    }
  }

  /** The block parses exactly when every line does. */
  lemma {:induction false} StagesOfSucceeds(lines: seq<string>)
    ensures StagesOf(lines).Success? <==> forall i :: 0 <= i < |lines| ==> StageOf(lines[i]).Success?
  {
    if |lines| > 0 {
      StagesOfSucceeds(lines[1..]);
      if StageOf(lines[0]).Success? && StagesOf(lines[1..]).Success? {
        forall i | 0 <= i < |lines| ensures StageOf(lines[i]).Success? {
          if i > 0 {
            assert lines[1..][i - 1] == lines[i];
          }
        }
      }
      if forall i :: 0 <= i < |lines| ==> StageOf(lines[i]).Success? {
        forall i | 0 <= i < |lines| - 1 ensures StageOf(lines[1..][i]).Success? {
          assert lines[1..][i] == lines[i + 1];
        }
      }
    }
  }

  /** Each stage of a parsed block is the stage of its own line. */
  lemma {:induction false} StagesOfValues(lines: seq<string>)
    requires StagesOf(lines).Success?
    ensures forall i :: 0 <= i < |lines| ==>
      StageOf(lines[i]).Success? && StagesOf(lines).value[i] == StageOf(lines[i]).value
  {
    if |lines| > 0 {
      var rest := lines[1..];
      StagesOfValues(rest);
      forall i | 0 <= i < |lines|
        ensures StageOf(lines[i]).Success? && StagesOf(lines).value[i] == StageOf(lines[i]).value
      {
        if i > 0 {
          assert rest[i - 1] == lines[i];
        }
      }
    }
  }

  /**
   * No marker, only whitespace before it, a bad line or the wrong number of
   * stages is an error, and nothing else is.
   */
  lemma RubricOfSpec(raw: string, scaleSize: int)
    ensures RubricMarker(raw).None? ==> RubricOf(raw, scaleSize) == Failure("Failed to find RUBRIC block: " + raw)
    ensures RubricMarker(raw).Some? ==>
      var h := RubricMarker(raw).value;
      var lines := BlockLines(Group(h, 0));
      (RubricOf(raw, scaleSize).Success? <==>
        !AllSpace(raw[..h.index]) && |lines| == scaleSize &&
        forall i :: 0 <= i < |lines| ==> StageOf(lines[i]).Success?)
  {
    if RubricMarker(raw).Some? {
      var h := RubricMarker(raw).value;
      TrimEmpty(raw[..h.index]);
      StagesOfSpec(BlockLines(Group(h, 0)));
    }
  }

  /**
   * A rubric has scaleSize well-formed stages, one per non-blank line of the
   * block, and the trimmed text before the marker as its reasoning.
   */
  lemma RubricOfStages(raw: string, scaleSize: int)
    requires RubricOf(raw, scaleSize).Success?
    ensures RubricMarker(raw).Some?
    ensures var h := RubricMarker(raw).value;
      var lines := BlockLines(Group(h, 0));
      var r := RubricOf(raw, scaleSize).value;
      r.reasoning == Trim(raw[..h.index]) && |r.reasoning| > 0 &&
      |r.stages| == scaleSize == |lines| &&
      forall i :: 0 <= i < |r.stages| ==>
        StageOf(lines[i]).Success? && r.stages[i] == StageOf(lines[i]).value && WellFormedStage(r.stages[i])
  {
    RubricOfParts(raw, scaleSize);
    StagesWellFormed(BlockLines(Group(RubricMarker(raw).value, 0)));
  }

  /** What a successful parse is made of: the trimmed reasoning and the parsed block. */
  lemma RubricOfParts(raw: string, scaleSize: int)
    requires RubricOf(raw, scaleSize).Success?
    ensures RubricMarker(raw).Some?
    ensures var h := RubricMarker(raw).value;
      var stages := StagesOf(BlockLines(Group(h, 0)));
      var r := RubricOf(raw, scaleSize).value;
      r.reasoning == Trim(raw[..h.index]) && r.reasoning != "" &&
      stages.Success? && r.stages == stages.value && |r.stages| == scaleSize
  {
    var h := RubricMarker(raw).value;
    var reasoning := Trim(raw[..h.index]);
    var stages := StagesOf(BlockLines(Group(h, 0)));
    assert reasoning != "" && stages.Success? && |stages.value| == scaleSize;
    assert RubricOf(raw, scaleSize) == Success(Rubric(reasoning, stages.value));
  }

  /** Every stage of a successfully parsed block is its line's stage, and well formed. */
  lemma StagesWellFormed(lines: seq<string>)
    requires StagesOf(lines).Success?
    ensures |StagesOf(lines).value| == |lines|
    ensures forall i :: 0 <= i < |lines| ==>
      StageOf(lines[i]).Success? && StagesOf(lines).value[i] == StageOf(lines[i]).value &&
      WellFormedStage(StagesOf(lines).value[i])
  {
    StagesOfSpec(lines);
    forall i | 0 <= i < |lines| ensures WellFormedStage(StageOf(lines[i]).value) {
      StageOfSpec(lines[i]);
    }
  }

  /** `run_parsers.ts` numbers the same stages 1, 2, … in order and fails exactly when the others do. */
  lemma NumberedRubricOfSpec(raw: string, scaleSize: int)
    ensures NumberedRubricOf(raw, scaleSize).Success? <==> RubricOf(raw, scaleSize).Success?
    ensures NumberedRubricOf(raw, scaleSize).Failure? ==> NumberedRubricOf(raw, scaleSize).error == RubricOf(raw, scaleSize).error
    ensures NumberedRubricOf(raw, scaleSize).Success? ==>
      var n := NumberedRubricOf(raw, scaleSize).value;
      var r := RubricOf(raw, scaleSize).value;
      n.reasoning == r.reasoning && |n.stages| == |r.stages| == scaleSize &&
      forall i :: 0 <= i < |n.stages| ==>
        n.stages[i].stageNumber == i + 1 && n.stages[i].stageLabel == r.stages[i].stageLabel &&
        n.stages[i].criteria == r.stages[i].criteria
  {
    if RubricOf(raw, scaleSize).Success? {
      RubricOfStages(raw, scaleSize);
    }
  }

  // ---------------------------------------------------------------------
  // clamp01

  function Clamp01(value: real): (r: real)
    ensures 0.0 <= r <= 1.0
    ensures 0.0 <= value <= 1.0 ==> r == value
    ensures value < 0.0 ==> r == 0.0
    ensures value > 1.0 ==> r == 1.0
  {
    if value < 0.0 then 0.0 else if value > 1.0 then 1.0 else value
  }

  lemma Clamp01Idempotent(value: real)
    ensures Clamp01(Clamp01(value)) == Clamp01(value)
  {
  }

  // ---------------------------------------------------------------------
  // parseQualityResponse, last match (run_parsers.ts, stages/rubric)

  /** The last QUALITY match of the `while (regex.exec(raw))` loop. */
  function LastQualityHit(raw: string): (r: Option<Hit>)
    ensures r.None? <==> forall q: nat :: q <= |raw| ==> QualityAt(raw, q).None?
    ensures r.Some? ==> QualityAt(raw, r.value.index) == r && r.value.index < r.value.end <= |raw|
    ensures r.Some? ==> forall q: nat :: r.value.end <= q <= |raw| ==> QualityAt(raw, q).None?
  {
    QualityProgressing();
    LastMatchCorrect(QualityAt, raw);
    LastHit(QualityAt, raw, 0, None)
  }

  function LastQuality(raw: string): (r: Result<QualityMatch>)
    ensures r.Success? ==> r.value.index < |raw|
    ensures r.Success? ==> IsUnitNumeral(r.value.observability) && IsUnitNumeral(r.value.discriminability)
  {
    match LastQualityHit(raw)
    case None => Failure("Failed to parse QUALITY line: " + raw)
    case Some(h) => Success(QualityMatch(Group(h, 0), Group(h, 1), h.index))
  }

  method FindLastQualityMatch(raw: string) returns (r: Result<QualityMatch>)
    ensures r == LastQuality(raw)
  {
    QualityProgressing();
    var lastMatch := LastMatch(QualityAt, raw);
    assert lastMatch == LastQualityHit(raw);
    if lastMatch.None? {
      return Failure("Failed to parse QUALITY line: " + raw);
    }
    return Success(QualityMatch(Group(lastMatch.value, 0), Group(lastMatch.value, 1), lastMatch.value.index));
  }

  function ReasoningBeforeQuality(raw: string): Result<string>
  {
    match LastQuality(raw)
    case Failure(e) => Failure(e)
    case Success(m) =>
      var reasoning := Trim(raw[..m.index]);
      if reasoning == "" then Failure("Missing reasoning before QUALITY line") else Success(reasoning)
  }

  method ExtractReasoningBeforeQuality(raw: string) returns (r: Result<string>)
    ensures r == ReasoningBeforeQuality(raw)
  {
    var found := FindLastQualityMatch(raw);
    if found.Failure? {
      return Failure(found.error);
    }
    var reasoning := Trim(raw[..found.value.index]);
    if reasoning == "" {
      return Failure("Missing reasoning before QUALITY line");
    }
    return Success(reasoning);
  }

  function QualityOf(raw: string): Result<Quality>
  {
    match LastQuality(raw)
    case Failure(e) => Failure(e)
    case Success(m) =>
      var observabilityScore := NumeralNumber(m.observability);
      var discriminabilityScore := NumeralNumber(m.discriminability);
      if observabilityScore.None? || discriminabilityScore.None? then
        Failure("Invalid QUALITY values: " + m.observability + ", " + m.discriminability)
      else
        match ReasoningBeforeQuality(raw)
        case Failure(e) => Failure(e)
        case Success(reasoning) =>
          Success(Quality(Clamp01(observabilityScore.value), Clamp01(discriminabilityScore.value), reasoning))
  }

  method ParseQualityResponse(raw: string) returns (r: Result<Quality>)
    ensures r == QualityOf(raw)
  {
    var found := FindLastQualityMatch(raw);
    if found.Failure? {
      return Failure(found.error);
    }
    var observability := found.value.observability;
    var discriminability := found.value.discriminability;
    var observabilityScore := NumeralNumber(observability);
    var discriminabilityScore := NumeralNumber(discriminability);
    if observabilityScore.None? || discriminabilityScore.None? {
      return Failure("Invalid QUALITY values: " + observability + ", " + discriminability);
    }
    var reasoning := ExtractReasoningBeforeQuality(raw);
    if reasoning.Failure? {
      return Failure(reasoning.error);
    }
    return Success(Quality(Clamp01(observabilityScore.value), Clamp01(discriminabilityScore.value), reasoning.value));
  }

  /** The response fails exactly when there is no QUALITY match or only whitespace precedes the last one. */
  lemma QualityOfSpec(raw: string)
    ensures LastQuality(raw).Failure? ==> QualityOf(raw) == Failure("Failed to parse QUALITY line: " + raw)
    ensures LastQuality(raw).Success? ==>
      (QualityOf(raw).Failure? <==> AllSpace(raw[..LastQuality(raw).value.index]))
  {
    ReasoningBeforeQualitySpec(raw);
  }

  /**
   * The scores come from the last QUALITY match, never read as NaN, and are
   * clamped into [0, 1]; the reasoning is the trimmed text before that match.
   */
  lemma QualityOfScores(raw: string)
    requires QualityOf(raw).Success?
    ensures LastQuality(raw).Success?
    ensures var m := LastQuality(raw).value;
      var q := QualityOf(raw).value;
      q.reasoning == Trim(raw[..m.index]) && |q.reasoning| > 0 &&
      q.observabilityScore == Clamp01(NumeralValue(m.observability)) &&
      q.discriminabilityScore == Clamp01(NumeralValue(m.discriminability))
  {
    ReasoningBeforeQualitySpec(raw);
  }

  /** The reasoning is the trimmed text before the last match, and it fails when that is only whitespace. */
  lemma ReasoningBeforeQualitySpec(raw: string)
    ensures LastQuality(raw).Failure? ==> ReasoningBeforeQuality(raw) == Failure("Failed to parse QUALITY line: " + raw)
    ensures LastQuality(raw).Success? ==>
      var m := LastQuality(raw).value;
      (ReasoningBeforeQuality(raw).Failure? <==> AllSpace(raw[..m.index])) &&
      (ReasoningBeforeQuality(raw).Failure? ==> ReasoningBeforeQuality(raw).error == "Missing reasoning before QUALITY line") &&
      (ReasoningBeforeQuality(raw).Success? ==>
        ReasoningBeforeQuality(raw).value == Trim(raw[..m.index]) && |ReasoningBeforeQuality(raw).value| > 0)
  {
    if LastQuality(raw).Success? {
      TrimEmpty(raw[..LastQuality(raw).value.index]);
    }
  }

  /** The QUALITY match used is one after which no other starts; without one the parse fails. */
  lemma LastQualitySpec(raw: string)
    ensures LastQuality(raw).Failure? <==> forall q: nat :: q <= |raw| ==> QualityAt(raw, q).None?
    ensures LastQuality(raw).Success? ==>
      var m := LastQuality(raw).value;
      var h := QualityAt(raw, m.index);
      h.Some? && FoldAt(raw, m.index, "QUALITY:") &&
      m.observability == h.value.groups[0] && m.discriminability == h.value.groups[1] &&
      forall q: nat :: h.value.end <= q <= |raw| ==> QualityAt(raw, q).None?
  {
  }

  // ---------------------------------------------------------------------
  // parseQualityResponse, first match (utils/rubric_parser.ts)

  function FirstQualityOf(raw: string): Result<QualityScores>
  {
    match Exec(QualityAt, raw, 0)
    case None => Failure("Failed to parse QUALITY line: " + raw)
    case Some(h) =>
      var observabilityScore := NumeralNumber(Group(h, 0));
      var discriminabilityScore := NumeralNumber(Group(h, 1));
      if observabilityScore.None? || discriminabilityScore.None? then
        Failure("Invalid QUALITY values: " + Group(h, 0) + ", " + Group(h, 1))
      else Success(QualityScores(Clamp01(observabilityScore.value), Clamp01(discriminabilityScore.value)))
  }

  /**
   * The first QUALITY match is used: the scores are its two numerals,
   * clamped; the only error is a response without a match.
   */
  lemma FirstQualityOfSpec(raw: string)
    ensures FirstQualityOf(raw).Failure? <==> forall q: nat :: q <= |raw| ==> QualityAt(raw, q).None?
    ensures FirstQualityOf(raw).Success? ==>
      var h := Exec(QualityAt, raw, 0).value;
      (forall q :: 0 <= q < h.index ==> QualityAt(raw, q).None?) &&
      FirstQualityOf(raw).value ==
        QualityScores(Clamp01(NumeralValue(h.groups[0])), Clamp01(NumeralValue(h.groups[1])))
  {
    FirstQualityHit(raw);
  }

  /** The first QUALITY match is one before which none starts; there is none only when no position matches. */
  lemma FirstQualityHit(raw: string)
    ensures Exec(QualityAt, raw, 0).None? <==> forall q: nat :: q <= |raw| ==> QualityAt(raw, q).None?
    ensures Exec(QualityAt, raw, 0).Some? ==>
      forall q :: 0 <= q < Exec(QualityAt, raw, 0).value.index ==> QualityAt(raw, q).None?
  {
    QualityProgressing();
    match Exec(QualityAt, raw, 0)
    case None =>
      forall q: nat | q <= |raw| ensures QualityAt(raw, q).None? {
        ExecFirst(QualityAt, raw, 0, q);
      }
    case Some(h) =>
      forall q: nat | q < h.index ensures QualityAt(raw, q).None? {
        ExecFirst(QualityAt, raw, 0, q);
      }
  }

  /** The last-match parser agrees with the first-match one on a response with a single QUALITY match. */
  lemma SingleQualityMatch(raw: string)
    requires FirstQualityOf(raw).Success? && QualityOf(raw).Success?
    requires Exec(QualityAt, raw, 0) == LastQualityHit(raw)
    ensures FirstQualityOf(raw).value.observabilityScore == QualityOf(raw).value.observabilityScore
    ensures FirstQualityOf(raw).value.discriminabilityScore == QualityOf(raw).value.discriminabilityScore
  {
    QualityOfSpec(raw);
    FirstQualityOfSpec(raw);
  }
}
