/**
 * The lenient verdict parsers of `utils/verdict_parser.ts`.  They read the
 * FIRST `VERDICT:` line (`raw.match` without the global flag), never throw,
 * and report what they could not decode as `null` fields instead.
 */
module LenientVerdicts {
  import opened Wrappers
  import opened JsStrings
  import opened RegexScan
  import opened ResponsePatterns
  import opened ScoringParsers

  /** `{ rawVerdict: null, decodedScores: null, abstained: false }`. */
  const NoVerdict := Verdict(None, None, false)

  /** `raw.match(/VERDICT:\s*(.+)/i)`: the trimmed rest of the first `VERDICT:` line, if any. */
  function FirstVerdictLine(raw: string): Option<string>
  {
    match Exec(VerdictAt, raw, 0)
    case None => None
    case Some(h) => Some(Trim(Split(Group(h, 0), '\n')[0]))
  }

  /**
   * There is no line iff `VERDICT:` (in any letter case) matches nowhere;
   * otherwise the line is the trimmed group of a match before which no
   * position matches.
   */
  lemma FirstVerdictLineSpec(raw: string)
    ensures FirstVerdictLine(raw).None? <==> forall q: nat :: q <= |raw| ==> VerdictAt(raw, q).None?
    ensures FirstVerdictLine(raw).Some? ==>
      var h := Exec(VerdictAt, raw, 0).value;
      VerdictAt(raw, h.index) == Some(h) &&
      FirstVerdictLine(raw).value == Trim(Group(h, 0)) &&
      forall q: nat :: q < h.index ==> VerdictAt(raw, q).None?
  {
    VerdictProgressing();
    if Exec(VerdictAt, raw, 0).None? {
      forall q: nat | q <= |raw| ensures VerdictAt(raw, q).None? {
        ExecFirst(VerdictAt, raw, 0, q);
      }
    } else {
      var h := Exec(VerdictAt, raw, 0).value;
      forall q: nat | q < h.index ensures VerdictAt(raw, q).None? {
        ExecFirst(VerdictAt, raw, 0, q);
      }
      SplitPlain(Group(h, 0), '\n');
    }
    if forall q: nat :: q <= |raw| ==> VerdictAt(raw, q).None? {
      ExecNone(VerdictAt, raw, 0);
    }
  }

  // ---------------------------------------------------------------------
  // parseSingleVerdict

  function LenientSingleVerdict(raw: string, labelMapping: LabelMapping): Verdict
  {
    match FirstVerdictLine(raw)
    case None => NoVerdict
    case Some(line) => LenientSingleOfLine(line, labelMapping)
  }

  /** What the lenient parseSingleVerdict makes of the verdict line. */
  function LenientSingleOfLine(line: string, labelMapping: LabelMapping): Verdict
  {
    if Upper(line) == "ABSTAIN" then Abstention
    else
      match VerdictToken(line)
      case None => Verdict(Some(line), None, false)
      case Some(token) =>
        match labelMapping
        case Some(m) =>
          if token in m then Verdict(Some(token), Some([m[token]]), false)
          else Verdict(Some(token), None, false)
        case None => Verdict(Some(token), Some([FirstCodeUnit(token[0]) - 64]), false)
  }

  /**
   * No match gives the null verdict; ABSTAIN in any case abstains; a line
   * without a token is reported with no scores; otherwise the first token
   * is reported and decoded through the mapping (no scores when it is
   * missing) or, without a mapping, from its first character code as it
   * stands, `A` = 1, with no upper-casing and no range check.
   */
  lemma LenientSingleSpec(raw: string, labelMapping: LabelMapping)
    ensures FirstVerdictLine(raw).None? ==> LenientSingleVerdict(raw, labelMapping) == NoVerdict
    ensures FirstVerdictLine(raw).Some? ==>
      LenientLineMeaning(FirstVerdictLine(raw).value, labelMapping, LenientSingleVerdict(raw, labelMapping))
  {
    if FirstVerdictLine(raw).Some? {
      LenientSingleOfLineSpec(FirstVerdictLine(raw).value, labelMapping);
    }
  }

  /** What a lenient single verdict read from `line` must be. */
  predicate LenientLineMeaning(line: string, labelMapping: LabelMapping, v: Verdict)
  {
    (v.abstained <==> Upper(line) == "ABSTAIN") &&
    (v.abstained ==> v == Abstention) &&
    (!v.abstained && VerdictToken(line).None? ==> v == Verdict(Some(line), None, false)) &&
    (!v.abstained && VerdictToken(line).Some? ==>
      var token := VerdictToken(line).value;
      |token| > 0 && v.rawVerdict == Some(token) &&
      match labelMapping
      case Some(m) => (v.decodedScores.Some? <==> token in m) && (token in m ==> v.decodedScores == Some([m[token]]))
      case None => v.decodedScores == Some([token[0] as int - 64]))
  }

  lemma LenientSingleOfLineSpec(line: string, labelMapping: LabelMapping)
    ensures LenientLineMeaning(line, labelMapping, LenientSingleOfLine(line, labelMapping))
  {
    if Upper(line) != "ABSTAIN" && VerdictToken(line).Some? {
      assert |VerdictToken(line).value| > 0;
      assert VerdictToken(line).value[0] as int < 0x1_0000 by {
        VerdictTokenFirst(line);
        var h := Exec(TokenAt, line, 0).value;
        assert IsAsciiAlnum(line[h.index]);
      }
    }
  }

  /**
   * Whatever the response, the result is consistent: it abstains only as the
   * fixed abstention, and decoded scores always come with the token or line
   * they were read from.
   */
  lemma LenientSingleShape(raw: string, labelMapping: LabelMapping)
    ensures var v := LenientSingleVerdict(raw, labelMapping);
      (v.abstained ==> v == Abstention) &&
      (v.rawVerdict.None? ==> v == NoVerdict) &&
      (v.decodedScores.Some? ==> !v.abstained && v.rawVerdict.Some? && |v.decodedScores.value| == 1)
  {
    match FirstVerdictLine(raw)
    case None =>
    case Some(line) =>
      LenientLineShape(line, labelMapping);
  }

  /** LenientSingleShape for the verdict line itself. */
  lemma LenientLineShape(line: string, labelMapping: LabelMapping)
    ensures var v := LenientSingleOfLine(line, labelMapping);
      (v.abstained ==> v == Abstention) && v.rawVerdict.Some? &&
      (v.decodedScores.Some? ==> !v.abstained && |v.decodedScores.value| == 1)
  {
    var abstains := Upper(line) == "ABSTAIN";
    if !abstains {
      var v := LenientSingleOfLine(line, labelMapping);
      match VerdictToken(line)
      case None =>
        assert v == Verdict(Some(line), None, false);
      case Some(token) =>
        assert v.rawVerdict == Some(token) && !v.abstained;
    }
  }

  /**
   * Where the first `VERDICT:` match is also the last one, the lenient
   * parser returns what the strict one returns whenever the strict one
   * succeeds with a mapping.
   */
  lemma LenientAgreesWithStrictMapped(raw: string, m: map<string, int>)
    requires Exec(VerdictAt, raw, 0) == LastHit(VerdictAt, raw, 0, None)
    ensures SingleVerdictOf(raw, Some(m)).Success? ==> LenientSingleVerdict(raw, Some(m)) == SingleVerdictOf(raw, Some(m)).value
  {
    if SingleVerdictOf(raw, Some(m)).Success? {
      var line := LastVerdictLine(raw).value.line;
      assert FirstVerdictLine(raw) == Some(line);
      if Upper(line) != "ABSTAIN" {
        SingleVerdictDecodes(line, Some(m));
      }
    }
  }

  /** Without a mapping the two agree on upper-case letters and digits; lower-case letters decode differently. */
  lemma LenientAgreesWithStrictUnmapped(line: string)
    requires Upper(line) != "ABSTAIN" && VerdictToken(line).Some?
    ensures var t := VerdictToken(line).value;
      ('a' <= t[0] <= 'z' <==> LenientSingleOfLine(line, None) != SingleVerdictOfLine(line, None).value)
  {
    var t := VerdictToken(line).value;
    VerdictTokenFirst(line);
    var h := Exec(TokenAt, line, 0).value;
    assert t[0] == line[h.index];
    assert IsAsciiAlnum(t[0]);
  }

  // ---------------------------------------------------------------------
  // parseSubsetVerdict

  /** `labelMapping ? labelMapping[t] : t.charCodeAt(0) - 64`, with `undefined` as no score. */
  function LenientDecodeToken(t: string, labelMapping: LabelMapping): (d: seq<int>)
    requires |t| > 0
    ensures |d| <= 1
  {
    match labelMapping
    case Some(m) => if t in m then [m[t]] else []
    case None => [FirstCodeUnit(t[0]) - 64]
  }

  /** The `.map(...).filter(d => d !== undefined)` over the tokens. */
  function LenientDecoded(tokens: seq<string>, labelMapping: LabelMapping): (d: seq<int>)
    requires forall k :: 0 <= k < |tokens| ==> |tokens[k]| > 0
    ensures |d| <= |tokens|
  {
    if |tokens| == 0 then []
    else LenientDecoded(tokens[..|tokens| - 1], labelMapping) + LenientDecodeToken(tokens[|tokens| - 1], labelMapping)
  }

  function LenientSubsetVerdict(raw: string, labelMapping: LabelMapping): Verdict
  {
    match FirstVerdictLine(raw)
    case None => NoVerdict
    case Some(line) => LenientSubsetOfLine(line, labelMapping)
  }

  /** What the lenient parseSubsetVerdict makes of the verdict line. */
  function LenientSubsetOfLine(line: string, labelMapping: LabelMapping): Verdict
  {
    if Upper(line) == "ABSTAIN" then Abstention
    else
      var d := LenientDecoded(VerdictTokens(line), labelMapping);
      Verdict(Some(line), if |d| > 0 then Some(d) else None, false)
  }

  /** Through a mapping, unknown tokens are dropped and the rest decode in order, as in the strict parser. */
  lemma {:induction false} LenientDecodedMapped(tokens: seq<string>, m: map<string, int>)
    requires forall k :: 0 <= k < |tokens| ==> |tokens[k]| > 0
    ensures LenientDecoded(tokens, Some(m)) == Decoded(tokens, Some(m))
  {
    if |tokens| > 0 {
      LenientDecodedMapped(tokens[..|tokens| - 1], m);
    }
  }

  /** Without a mapping every token decodes, from its first character code. */
  lemma {:induction false} LenientDecodedUnmapped(tokens: seq<string>)
    requires forall k :: 0 <= k < |tokens| ==> |tokens[k]| > 0
    ensures |LenientDecoded(tokens, None)| == |tokens|
    ensures forall k :: 0 <= k < |tokens| ==> LenientDecoded(tokens, None)[k] == FirstCodeUnit(tokens[k][0]) - 64
  {
    if |tokens| > 0 {
      var init := tokens[..|tokens| - 1];
      LenientDecodedUnmapped(init);
      forall k | 0 <= k < |tokens| ensures LenientDecoded(tokens, None)[k] == FirstCodeUnit(tokens[k][0]) - 64 {
        if k < |init| {
          assert tokens[k] == init[k];
        }
      }
    }
  }

  /**
   * The subset verdict: no match gives the null verdict; ABSTAIN in any case
   * abstains; otherwise the whole line is reported, with the decoded scores
   * or `null` when none decode.  It never throws.
   */
  lemma LenientSubsetSpec(raw: string, labelMapping: LabelMapping)
    ensures FirstVerdictLine(raw).None? ==> LenientSubsetVerdict(raw, labelMapping) == NoVerdict
    ensures FirstVerdictLine(raw).Some? ==>
      var line := FirstVerdictLine(raw).value;
      var tokens := VerdictTokens(line);
      var v := LenientSubsetVerdict(raw, labelMapping);
      (v.abstained <==> Upper(line) == "ABSTAIN") &&
      (!v.abstained ==> v.rawVerdict == Some(line)) &&
      (!v.abstained && labelMapping.Some? ==>
        (v.decodedScores.Some? <==> |Decoded(tokens, labelMapping)| > 0) &&
        (v.decodedScores.Some? ==> v.decodedScores.value == Decoded(tokens, labelMapping))) &&
      (!v.abstained && labelMapping.None? ==>
        (v.decodedScores.Some? <==> |tokens| > 0) &&
        (v.decodedScores.Some? ==> |v.decodedScores.value| == |tokens|))
  {
    if FirstVerdictLine(raw).Some? {
      var line := FirstVerdictLine(raw).value;
      var tokens := VerdictTokens(line);
      if labelMapping.Some? {
        LenientDecodedMapped(tokens, labelMapping.value);
      } else {
        LenientDecodedUnmapped(tokens);
      }
    }
  }

  /**
   * Where the first match is the last one and the strict subset parser
   * succeeds with a mapping, the lenient one gives the same verdict.
   */
  lemma LenientSubsetAgreesWithStrict(raw: string, m: map<string, int>)
    requires Exec(VerdictAt, raw, 0) == LastHit(VerdictAt, raw, 0, None)
    ensures SubsetVerdictOf(raw, Some(m)).Success? ==> LenientSubsetVerdict(raw, Some(m)) == SubsetVerdictOf(raw, Some(m)).value
  {
    if SubsetVerdictOf(raw, Some(m)).Success? && FirstVerdictLine(raw).Some? {
      LenientDecodedMapped(VerdictTokens(FirstVerdictLine(raw).value), m);
    }
  }
}
