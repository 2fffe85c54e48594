/**
 * The strict verdict and expert-agreement parsers of the scoring stage
 * (`run_parsers.ts`, lines 111-246, and the identical
 * `scoring_parsers.ts`): they read the last `VERDICT:` or
 * `EXPERT_AGREEMENT:` line of a model response and throw on anything they
 * cannot decode.  A thrown error is a `Failure` carrying its message.
 */
module ScoringParsers {
  import opened Wrappers
  import opened JsStrings
  import opened RegexScan
  import opened ResponsePatterns

  /** The trimmed rest of the last `VERDICT:` line, and where that match starts. */
  datatype VerdictLine = VerdictLine(line: string, index: nat)

  /** `{ rawVerdict, decodedScores, abstained }`, with `null` as `None`. */
  datatype Verdict = Verdict(rawVerdict: Option<string>, decodedScores: Option<seq<int>>, abstained: bool)

  datatype ExpertAgreement = ExpertAgreement(expertAgreementProb: real, reasoning: string)

  /** The optional `labelMapping` argument: label to score. */
  type LabelMapping = Option<map<string, int>>

  const Abstention := Verdict(Some("ABSTAIN"), None, true)

  // ---------------------------------------------------------------------
  // getLastVerdictMatch and extractReasoningBeforeVerdict

  function LastVerdictLine(raw: string): (r: Result<VerdictLine>)
    ensures r.Success? ==> r.value.index < |raw|
  {
    VerdictProgressing();
    LastHitInside(VerdictAt, raw);
    match LastHit(VerdictAt, raw, 0, None)
    case None => Failure("Failed to parse verdict line: " + raw)
    case Some(h) => Success(VerdictLine(Trim(Split(Group(h, 0), '\n')[0]), h.index))
  }

  method GetLastVerdictMatch(raw: string) returns (r: Result<VerdictLine>)
    ensures r == LastVerdictLine(raw)
  {
    VerdictProgressing();
    var lastMatch := LastMatch(VerdictAt, raw);
    if lastMatch.None? {
      return Failure("Failed to parse verdict line: " + raw);
    }
    var line := Trim(Split(Group(lastMatch.value, 0), '\n')[0]);
    return Success(VerdictLine(line, lastMatch.value.index));
  }

  /**
   * No `VERDICT:` anywhere is an error; otherwise the line comes from a
   * case-insensitive `VERDICT:` match after which there is no other, and it
   * is the trimmed rest of that line.
   */
  lemma LastVerdictLineSpec(raw: string)
    ensures LastVerdictLine(raw).Failure? <==> forall q: nat :: q <= |raw| ==> VerdictAt(raw, q).None?
    ensures LastVerdictLine(raw).Success? ==>
      var v := LastVerdictLine(raw).value;
      var h := VerdictAt(raw, v.index);
      h.Some? && FoldAt(raw, v.index, "VERDICT:") &&
      v.line == Trim(h.value.groups[0]) &&
      (h.value.end == |raw| || IsLineTerminator(raw[h.value.end])) &&
      (forall c :: c in v.line ==> NotTerminator(c)) &&
      forall q: nat :: h.value.end <= q <= |raw| ==> VerdictAt(raw, q).None?
  {
    VerdictProgressing();
    LastMatchCorrect(VerdictAt, raw);
    match LastHit(VerdictAt, raw, 0, None)
    case None =>
    case Some(h) =>
      assert '\n' !in h.groups[0];
      SplitPlain(h.groups[0], '\n');
      TrimWithin(h.groups[0]);
  }

  function ReasoningBeforeVerdict(raw: string): Result<string>
  {
    match LastVerdictLine(raw)
    case Failure(e) => Failure(e)
    case Success(v) =>
      var reasoning := Trim(raw[..v.index]);
      if reasoning == "" then Failure("Missing reasoning before VERDICT line") else Success(reasoning)
  }

  method ExtractReasoningBeforeVerdict(raw: string) returns (r: Result<string>)
    ensures r == ReasoningBeforeVerdict(raw)
  {
    var found := GetLastVerdictMatch(raw);
    if found.Failure? {
      return Failure(found.error);
    }
    var reasoning := Trim(raw[..found.value.index]);
    if reasoning == "" {
      return Failure("Missing reasoning before VERDICT line");
    }
    return Success(reasoning);
  }

  /** The reasoning is the trimmed text before the last verdict; only whitespace there is an error. */
  lemma ReasoningBeforeVerdictSpec(raw: string)
    ensures ReasoningBeforeVerdict(raw).Failure? <==>
      LastVerdictLine(raw).Failure? || AllSpace(raw[..LastVerdictLine(raw).value.index])
    ensures ReasoningBeforeVerdict(raw).Success? ==>
      var t := ReasoningBeforeVerdict(raw).value;
      t == Trim(raw[..LastVerdictLine(raw).value.index]) && |t| > 0 && Trimmed(t)
  {
    if LastVerdictLine(raw).Success? {
      var before := raw[..LastVerdictLine(raw).value.index];
      TrimEmpty(before);
      TrimEnds(before);
    }
  }

  // ---------------------------------------------------------------------
  // parseSingleVerdict

  /**
   * `line.match(/[A-Za-z0-9]+/)`: the first maximal run of ASCII letters and
   * digits, if there is one.
   */
  function VerdictToken(line: string): (r: Option<string>)
    ensures r.None? <==> forall i :: 0 <= i < |line| ==> !IsAsciiAlnum(line[i])
    ensures r.Some? ==> |r.value| > 0
  {
    FirstToken(line);
    match Exec(TokenAt, line, 0)
    case None => None
    case Some(t) => Some(Group(t, 0))
  }

  /** The token is the maximal run of letters and digits starting at the first one. */
  lemma VerdictTokenFirst(line: string)
    requires VerdictToken(line).Some?
    ensures var h := Exec(TokenAt, line, 0).value;
      VerdictToken(line).value == line[h.index..h.end] &&
      (forall i :: 0 <= i < h.index ==> !IsAsciiAlnum(line[i])) &&
      (forall i :: h.index <= i < h.end ==> IsAsciiAlnum(line[i])) &&
      (h.end == |line| || !IsAsciiAlnum(line[h.end]))
  {
    FirstToken(line);
    var h := Exec(TokenAt, line, 0).value;
    assert TokenAt(line, h.index) == Some(h);
    AlnumSlice(line, h.index, h.end, h.groups[0]);
  }

  lemma AlnumSlice(s: string, lo: nat, hi: nat, t: string)
    requires lo <= hi <= |s| && t == s[lo..hi] && forall c :: c in t ==> IsAsciiAlnum(c)
    ensures forall i :: lo <= i < hi ==> IsAsciiAlnum(s[i])
  {
    forall i | lo <= i < hi ensures IsAsciiAlnum(s[i]) {
      assert s[i] == t[i - lo];
    }
  }

  function SingleVerdictOf(raw: string, labelMapping: LabelMapping): Result<Verdict>
  {
    match LastVerdictLine(raw)
    case Failure(e) => Failure(e)
    case Success(v) => SingleVerdictOfLine(v.line, labelMapping)
  }

  /** What parseSingleVerdict makes of the verdict line. */
  function SingleVerdictOfLine(line: string, labelMapping: LabelMapping): Result<Verdict>
  {
    if Upper(line) == "ABSTAIN" then Success(Abstention)
    else
      match VerdictToken(line)
      case None => Failure("Failed to parse verdict token: " + line)
      case Some(token) =>
        match labelMapping
        case Some(m) =>
          if token in m then Success(Verdict(Some(token), Some([m[token]]), false))
          else Failure("Unrecognized verdict label: " + token)
        case None => Success(Verdict(Some(token), Some([Upper(token)[0] as int - 64]), false))
  }

  method ParseSingleVerdict(raw: string, labelMapping: LabelMapping) returns (r: Result<Verdict>)
    ensures r == SingleVerdictOf(raw, labelMapping)
  {
    var found := GetLastVerdictMatch(raw);
    if found.Failure? {
      return Failure(found.error);
    }
    r := ParseSingleVerdictLine(found.value.line, labelMapping);
  }

  /** The rest of parseSingleVerdict, once the verdict line is found. */
  method ParseSingleVerdictLine(line: string, labelMapping: LabelMapping) returns (r: Result<Verdict>)
    ensures r == SingleVerdictOfLine(line, labelMapping)
  {
    if Upper(line) == "ABSTAIN" {
      return Success(Abstention);
    }
    var tokenMatch := VerdictToken(line);
    if tokenMatch.None? {
      return Failure("Failed to parse verdict token: " + line);
    }
    var token := tokenMatch.value;
    var normalized := Upper(token);
    if labelMapping.Some? {
      if token !in labelMapping.value {
        return Failure("Unrecognized verdict label: " + token);
      }
      return Success(Verdict(Some(token), Some([labelMapping.value[token]]), false));
    }
    return Success(Verdict(Some(token), Some([normalized[0] as int - 64]), false));
  }

  /** ABSTAIN in any letter case, and only that, gives the abstention verdict. */
  lemma SingleVerdictAbstains(raw: string, labelMapping: LabelMapping)
    ensures (SingleVerdictOf(raw, labelMapping).Success? && SingleVerdictOf(raw, labelMapping).value.abstained) <==>
      (LastVerdictLine(raw).Success? && Upper(LastVerdictLine(raw).value.line) == "ABSTAIN")
    ensures SingleVerdictOf(raw, labelMapping).Success? && SingleVerdictOf(raw, labelMapping).value.abstained ==>
      SingleVerdictOf(raw, labelMapping).value == Abstention
  {
  }

  /**
   * Otherwise the first token is the verdict: it is looked up in the
   * mapping, whose missing keys are errors, or without a mapping its
   * upper-cased first character counts from `A` = 1, with no range check.
   * A line without a token is an error.
   */
  lemma SingleVerdictDecodes(line: string, labelMapping: LabelMapping)
    requires Upper(line) != "ABSTAIN"
    ensures VerdictToken(line).None? ==> SingleVerdictOfLine(line, labelMapping).Failure?
    ensures VerdictToken(line).Some? && labelMapping.Some? ==>
      var token := VerdictToken(line).value;
      var m := labelMapping.value;
      (token in m <==> SingleVerdictOfLine(line, labelMapping).Success?) &&
      (token in m ==> SingleVerdictOfLine(line, labelMapping).value == Verdict(Some(token), Some([m[token]]), false))
    ensures VerdictToken(line).Some? && labelMapping.None? ==>
      var token := VerdictToken(line).value;
      SingleVerdictOfLine(line, labelMapping) == Success(Verdict(Some(token), Some([UpperChar(token[0]) as int - 64]), false))
  {
  }

  // ---------------------------------------------------------------------
  // parseSubsetVerdict

  /** `line.replace(/[\[\]]/g, "")`. */
  function RemoveBrackets(s: string): (r: string)
    ensures '[' !in r && ']' !in r && |r| <= |s|
    ensures '[' !in s && ']' !in s ==> r == s
  {
    if |s| == 0 then ""
    else (if s[0] == '[' || s[0] == ']' then "" else [s[0]]) + RemoveBrackets(s[1..])
  }

  predicate IsVerdictSeparator(c: char) { c == ',' || c == '/' || IsSpace(c) }

  /** The tokens of a verdict line: brackets removed, split on runs of commas, whitespace and `/`, blanks dropped. */
  function VerdictTokens(line: string): seq<string>
  {
    Words(RemoveBrackets(line), IsVerdictSeparator)
  }

  /** A token `^[A-Z]$` matches once upper-cased. */
  predicate IsSingleLetter(t: string)
  {
    |t| == 1 && 'A' <= UpperChar(t[0]) <= 'Z'
  }

  /** What one token contributes to the decoded scores. */
  function DecodeToken(t: string, labelMapping: LabelMapping): (d: seq<int>)
    ensures |d| <= 1
  {
    match labelMapping
    case Some(m) => if t in m then [m[t]] else []
    case None => if IsSingleLetter(t) then [UpperChar(t[0]) as int - 64] else []
  }

  /** The scores decoded from the tokens, in token order. */
  function Decoded(tokens: seq<string>, labelMapping: LabelMapping): (d: seq<int>)
    ensures |d| <= |tokens|
  {
    if |tokens| == 0 then []
    else Decoded(tokens[..|tokens| - 1], labelMapping) + DecodeToken(tokens[|tokens| - 1], labelMapping)
  }

  predicate AnyUnknown(tokens: seq<string>, m: map<string, int>)
  {
    exists k :: 0 <= k < |tokens| && tokens[k] !in m
  }

  function SubsetVerdictOf(raw: string, labelMapping: LabelMapping): Result<Verdict>
  {
    match LastVerdictLine(raw)
    case Failure(e) => Failure(e)
    case Success(v) => SubsetVerdictOfLine(v.line, labelMapping)
  }

  /** What parseSubsetVerdict makes of the verdict line. */
  function SubsetVerdictOfLine(line: string, labelMapping: LabelMapping): Result<Verdict>
  {
    if Upper(line) == "ABSTAIN" then Success(Abstention)
    else
      var tokens := VerdictTokens(line);
      if |tokens| == 0 then Failure("Failed to parse verdict tokens: " + line)
      else if labelMapping.Some? && AnyUnknown(tokens, labelMapping.value) then
        Failure("Unrecognized verdict label: " + line)
      else if |Decoded(tokens, labelMapping)| == 0 then Failure("Unrecognized verdict label: " + line)
      else Success(Verdict(Some(line), Some(Decoded(tokens, labelMapping)), false))
  }

  /** The `for (const token of tokens)` loop: the decoded scores, and whether a mapping missed a token. */
  method DecodeTokens(tokens: seq<string>, labelMapping: LabelMapping) returns (decoded: seq<int>, unknownToken: bool)
    ensures decoded == Decoded(tokens, labelMapping)
    ensures unknownToken <==> labelMapping.Some? && AnyUnknown(tokens, labelMapping.value)
  {
    decoded := [];
    unknownToken := false;
    var i := 0;
    while i < |tokens|
      invariant 0 <= i <= |tokens|
      invariant decoded == Decoded(tokens[..i], labelMapping)
      invariant unknownToken <==> labelMapping.Some? && AnyUnknown(tokens[..i], labelMapping.value)
    {
      var token := tokens[i];
      assert tokens[..i + 1][..i] == tokens[..i];
      if labelMapping.Some? {
        if token in labelMapping.value {
          decoded := decoded + [labelMapping.value[token]];
        } else {
          unknownToken := true;
        }
      } else {
        var normalized := Upper(token);
        if |normalized| == 1 && 'A' <= normalized[0] <= 'Z' {
          decoded := decoded + [normalized[0] as int - 64];
        }
      }
      i := i + 1;
    }
    assert tokens[..i] == tokens;
  }

  method ParseSubsetVerdict(raw: string, labelMapping: LabelMapping) returns (r: Result<Verdict>)
    ensures r == SubsetVerdictOf(raw, labelMapping)
  {
    var found := GetLastVerdictMatch(raw);
    if found.Failure? {
      return Failure(found.error);
    }
    var verdictLine := found.value.line;
    if Upper(verdictLine) == "ABSTAIN" {
      return Success(Abstention);
    }
    var tokens := VerdictTokens(verdictLine);
    if |tokens| == 0 {
      return Failure("Failed to parse verdict tokens: " + verdictLine);
    }
    var decoded, unknownToken := DecodeTokens(tokens, labelMapping);
    if labelMapping.Some? && unknownToken {
      return Failure("Unrecognized verdict label: " + verdictLine);
    }
    if |decoded| == 0 {
      return Failure("Unrecognized verdict label: " + verdictLine);
    }
    return Success(Verdict(Some(verdictLine), Some(decoded), false));
  }

  lemma DecodedSnoc(tokens: seq<string>, labelMapping: LabelMapping)
    requires |tokens| > 0
    ensures Decoded(tokens, labelMapping) ==
      Decoded(tokens[..|tokens| - 1], labelMapping) + DecodeToken(tokens[|tokens| - 1], labelMapping)
  {
  }

  lemma ScoresAssoc(x: seq<int>, y: seq<int>, z: seq<int>)
    ensures x + y + z == x + (y + z)
  {
  }

  /** Decoding a concatenation decodes each part, in order. */
  lemma {:induction false} DecodedAppend(a: seq<string>, b: seq<string>, labelMapping: LabelMapping)
    ensures Decoded(a + b, labelMapping) == Decoded(a, labelMapping) + Decoded(b, labelMapping)
    decreases |b|
  {
    if |b| > 0 {
      var ab := a + b;
      var front := b[..|b| - 1];
      assert ab[..|ab| - 1] == a + front && ab[|ab| - 1] == b[|b| - 1];
      DecodedSnoc(ab, labelMapping);
      DecodedSnoc(b, labelMapping);
      DecodedAppend(a, front, labelMapping);
      ScoresAssoc(Decoded(a, labelMapping), Decoded(front, labelMapping), DecodeToken(b[|b| - 1], labelMapping));
    } else {
      assert a + b == a;
    }
  }

  /** With a mapping and every token known, each token gives its mapped score, in order. */
  lemma {:induction false} DecodedMapped(tokens: seq<string>, m: map<string, int>)
    requires !AnyUnknown(tokens, m)
    ensures |Decoded(tokens, Some(m))| == |tokens|
    ensures forall k :: 0 <= k < |tokens| ==> tokens[k] in m && Decoded(tokens, Some(m))[k] == m[tokens[k]]
  {
    if |tokens| > 0 {
      var init := tokens[..|tokens| - 1];
      assert !AnyUnknown(init, m) by {
        forall k | 0 <= k < |init| ensures init[k] in m {
          assert init[k] == tokens[k];
        }
      }
      DecodedMapped(init, m);
    }
  }

  /** Without a mapping, exactly the single-letter tokens decode, each to its place in the alphabet. */
  lemma {:induction false} DecodedLetters(tokens: seq<string>)
    ensures |Decoded(tokens, None)| > 0 <==> exists k :: 0 <= k < |tokens| && IsSingleLetter(tokens[k])
    ensures forall j :: 0 <= j < |Decoded(tokens, None)| ==> 1 <= Decoded(tokens, None)[j] <= 26
  {
    if |tokens| > 0 {
      var init := tokens[..|tokens| - 1];
      DecodedLetters(init);
      if exists k :: 0 <= k < |init| && IsSingleLetter(init[k]) {
        var k :| 0 <= k < |init| && IsSingleLetter(init[k]);
        assert tokens[k] == init[k];
      }
      if exists k :: 0 <= k < |tokens| && IsSingleLetter(tokens[k]) {
        var k :| 0 <= k < |tokens| && IsSingleLetter(tokens[k]);
        if k < |init| {
          assert init[k] == tokens[k];
        }
      }
    }
  }

  /**
   * With a mapping: an unknown token is an error, and otherwise every
   * token decodes through the mapping, in token order.
   */
  lemma SubsetVerdictMapped(raw: string, m: map<string, int>)
    requires LastVerdictLine(raw).Success? && Upper(LastVerdictLine(raw).value.line) != "ABSTAIN"
    ensures var tokens := VerdictTokens(LastVerdictLine(raw).value.line);
      |tokens| == 0 || AnyUnknown(tokens, m) ==> SubsetVerdictOf(raw, Some(m)).Failure?
    ensures var line := LastVerdictLine(raw).value.line;
      var tokens := VerdictTokens(line);
      |tokens| > 0 && !AnyUnknown(tokens, m) ==>
        SubsetVerdictOf(raw, Some(m)).Success? &&
        var v := SubsetVerdictOf(raw, Some(m)).value;
        v.rawVerdict == Some(line) && !v.abstained && v.decodedScores.Some? &&
        |v.decodedScores.value| == |tokens| &&
        forall k :: 0 <= k < |tokens| ==> v.decodedScores.value[k] == m[tokens[k]]
  {
    var tokens := VerdictTokens(LastVerdictLine(raw).value.line);
    if !AnyUnknown(tokens, m) {
      DecodedMapped(tokens, m);
    }
  }

  /**
   * Without a mapping: only single letters decode, other tokens are
   * skipped, and a line with no single letter is an error.
   */
  lemma SubsetVerdictUnmapped(raw: string)
    requires LastVerdictLine(raw).Success? && Upper(LastVerdictLine(raw).value.line) != "ABSTAIN"
    ensures var tokens := VerdictTokens(LastVerdictLine(raw).value.line);
      SubsetVerdictOf(raw, None).Success? <==> exists k :: 0 <= k < |tokens| && IsSingleLetter(tokens[k])
    ensures SubsetVerdictOf(raw, None).Success? ==>
      var v := SubsetVerdictOf(raw, None).value;
      var tokens := VerdictTokens(LastVerdictLine(raw).value.line);
      v.decodedScores == Some(Decoded(tokens, None)) && !v.abstained &&
      forall j :: 0 <= j < |Decoded(tokens, None)| ==> 1 <= Decoded(tokens, None)[j] <= 26
  {
    SubsetLineUnmapped(LastVerdictLine(raw).value.line);
  }

  /** SubsetVerdictUnmapped for the verdict line itself. */
  lemma SubsetLineUnmapped(line: string)
    requires Upper(line) != "ABSTAIN"
    ensures var tokens := VerdictTokens(line);
      SubsetVerdictOfLine(line, None).Success? <==> exists k :: 0 <= k < |tokens| && IsSingleLetter(tokens[k])
    ensures SubsetVerdictOfLine(line, None).Success? ==>
      var v := SubsetVerdictOfLine(line, None).value;
      var scores := Decoded(VerdictTokens(line), None);
      v.decodedScores == Some(scores) && !v.abstained &&
      forall j :: 0 <= j < |scores| ==> 1 <= scores[j] <= 26
  {
    DecodedLetters(VerdictTokens(line));
  }

  /** Tokens never hold a bracket or a separator. */
  lemma VerdictTokensClean(line: string)
    ensures forall k :: 0 <= k < |VerdictTokens(line)| ==>
      |VerdictTokens(line)[k]| > 0 && '[' !in VerdictTokens(line)[k] && ']' !in VerdictTokens(line)[k] &&
      forall j :: 0 <= j < |VerdictTokens(line)[k]| ==> !IsVerdictSeparator(VerdictTokens(line)[k][j])
  {
    var r := RemoveBrackets(line);
    var ws := Words(r, IsVerdictSeparator);
    forall k | 0 <= k < |ws| ensures '[' !in ws[k] && ']' !in ws[k] {
      WordsWithin(r, IsVerdictSeparator, k);
    }
  }

  // ---------------------------------------------------------------------
  // parseExpertAgreementResponse

  /** `Math.min(1.0, Math.max(0.0, prob))`. */
  function ClampProbability(prob: real): (c: real)
    ensures 0.0 <= c <= 1.0
    ensures 0.0 <= prob <= 1.0 ==> c == prob
  {
    if 1.0 < (if 0.0 < prob then prob else 0.0) then 1.0 else if 0.0 < prob then prob else 0.0
  }

  /** The last EXPERT_AGREEMENT match of the `while (regex.exec(raw))` loop. */
  function LastExpertMatch(raw: string): (r: Option<Hit>)
    ensures r.None? <==> forall q: nat :: q <= |raw| ==> ExpertAgreementAt(raw, q).None?
    ensures r.Some? ==> ExpertAgreementAt(raw, r.value.index) == r && r.value.index < r.value.end <= |raw|
    ensures r.Some? ==> forall q: nat :: r.value.end <= q <= |raw| ==> ExpertAgreementAt(raw, q).None?
  {
    ExpertAgreementProgressing();
    LastMatchCorrect(ExpertAgreementAt, raw);
    LastHit(ExpertAgreementAt, raw, 0, None)
  }

  function ExpertAgreementOf(raw: string): Result<ExpertAgreement>
  {
    match LastExpertMatch(raw)
    case None => Failure("Failed to parse EXPERT_AGREEMENT line from probe response: " + raw)
    case Some(h) =>
      match NumeralNumber(Group(h, 0))
      case None => Failure("Invalid probability value parsed: " + Group(h, 0))
      case Some(prob) =>
        var reasoning := Trim(raw[..h.index]);
        if reasoning == "" then Failure("Missing reasoning before EXPERT_AGREEMENT line")
        else Success(ExpertAgreement(ClampProbability(prob), reasoning))
  }

  method ParseExpertAgreementResponse(raw: string) returns (r: Result<ExpertAgreement>)
    ensures r == ExpertAgreementOf(raw)
  {
    ExpertAgreementProgressing();
    var lastMatch := LastMatch(ExpertAgreementAt, raw);
    assert lastMatch == LastExpertMatch(raw);
    if lastMatch.None? {
      return Failure("Failed to parse EXPERT_AGREEMENT line from probe response: " + raw);
    }
    var numeral := Group(lastMatch.value, 0);
    var prob := NumeralNumber(numeral);
    if prob.None? {
      return Failure("Invalid probability value parsed: " + numeral);
    }
    var reasoning := Trim(raw[..lastMatch.value.index]);
    if reasoning == "" {
      return Failure("Missing reasoning before EXPERT_AGREEMENT line");
    }
    return Success(ExpertAgreement(ClampProbability(prob.value), reasoning));
  }

  /**
   * The probability comes from the last EXPERT_AGREEMENT match, never reads
   * as NaN, and is clamped into [0, 1]; the response fails exactly when
   * there is no match or only whitespace precedes the last one.
   */
  lemma ExpertAgreementSpec(raw: string)
    ensures (forall q: nat :: q <= |raw| ==> ExpertAgreementAt(raw, q).None?) ==> ExpertAgreementOf(raw).Failure?
    ensures LastExpertMatch(raw).Some? ==>
      var h := LastExpertMatch(raw).value;
      (ExpertAgreementOf(raw).Failure? <==> AllSpace(raw[..h.index])) &&
      (ExpertAgreementOf(raw).Success? ==>
        var e := ExpertAgreementOf(raw).value;
        e.reasoning == Trim(raw[..h.index]) && |e.reasoning| > 0 &&
        e.expertAgreementProb == (if NumeralValue(h.groups[0]) <= 1.0 then NumeralValue(h.groups[0]) else 1.0))
  {
    match LastExpertMatch(raw)
    case None =>
    case Some(h) =>
      TrimEmpty(raw[..h.index]);
  }

  /** Clamping keeps the result in [0, 1] and is idempotent. */
  lemma ClampProbabilityIdempotent(prob: real)
    ensures ClampProbability(ClampProbability(prob)) == ClampProbability(prob)
    ensures prob < 0.0 ==> ClampProbability(prob) == 0.0
    ensures prob > 1.0 ==> ClampProbability(prob) == 1.0
  {
  }
}
