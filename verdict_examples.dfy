/**
 * The verdict parsers on the responses their tests use
 * (packages/engine/tests/utils_verdict_parser.test.ts), worked out step by
 * step, and the lenient parsers on responses where they part ways with the
 * strict ones.
 */
module VerdictExamples {
  import opened Wrappers
  import opened JsStrings
  import opened RegexScan
  import opened ResponsePatterns
  import opened ScoringParsers
  import opened LenientVerdicts

  /** `VERDICT: <body>` (either letter case) at the start of s matches exactly up to the end of body. */
  lemma VerdictAtStart(s: string, prefix: string, body: string, rest: string)
    requires |body| > 0 && !IsSpace(body[0])
    requires forall c :: c in body ==> NotTerminator(c)
    requires |rest| == 0 || IsLineTerminator(rest[0])
    requires prefix == "VERDICT: " || prefix == "verdict: "
    requires s == prefix + body + rest
    ensures VerdictAt(s, 0) == Some(Hit(0, 9 + |body|, [body]))
  {
    var e := 9 + |body|;
    assert s[9..e] == body;
    assert FoldAt(s, 0, "VERDICT:");
    assert s[8] == ' ' && s[9] == body[0];
    assert RunEnd(s, 9, IsSpace) == 9;
    assert RunEnd(s, 8, IsSpace) == 9;
    assert RunEnd(s, 9, NotTerminator) == e by {
      assert forall k :: 9 <= k < e ==> s[k] == body[k - 9];
    }
  }

  /** A first match after which no position holds a `V` is the last match. */
  lemma OnlyVerdict(s: string, h: Hit)
    requires VerdictAt(s, 0) == Some(h)
    requires forall q :: h.end <= q < |s| ==> s[q] != 'V' && s[q] != 'v'
    ensures LastVerdictLine(s) == Success(VerdictLine(Trim(Split(Group(h, 0), '\n')[0]), 0))
  {
    VerdictProgressing();
    assert Exec(VerdictAt, s, 0) == Some(h);
    forall q: nat | h.end <= q <= |s| ensures VerdictAt(s, q).None? {
      if q < |s| {
        assert "VERDICT:"[0] == 'V' && !FoldEq(s[q], 'V');
        assert !FoldAt(s, q, "VERDICT:");
      }
    }
    ExecNone(VerdictAt, s, h.end);
    assert LastHit(VerdictAt, s, 0, None) == Some(h);
  }

  lemma VerdictLineOf(s: string, prefix: string, body: string, rest: string)
    requires |body| > 0 && !IsSpace(body[0]) && !IsSpace(body[|body| - 1])
    requires forall c :: c in body ==> NotTerminator(c)
    requires |rest| == 0 || IsLineTerminator(rest[0])
    requires forall q :: 9 + |body| <= q < |s| ==> s[q] != 'V' && s[q] != 'v'
    requires prefix == "VERDICT: " || prefix == "verdict: "
    requires s == prefix + body + rest
    ensures LastVerdictLine(s) == Success(VerdictLine(body, 0))
  {
    VerdictAtStart(s, prefix, body, rest);
    OnlyVerdict(s, Hit(0, 9 + |body|, [body]));
    SplitPlain(body, '\n');
    TrimStable(body);
  }

  lemma TokenOfBracketedB()
    ensures VerdictToken("[B].") == Some("B")
  {
    assert TokenAt("[B].", 0) == None;
    assert RunEnd("[B].", 1, IsAsciiAlnum) == 2;
    assert "[B]."[1..2] == "B";
    assert TokenAt("[B].", 1) == Some(Hit(1, 2, ["B"]));
  }
  lemma BracketedLetterLine()
    ensures SingleVerdictOfLine("[B].", None) == Success(Verdict(Some("B"), Some([2]), false))
  {
    TokenOfBracketedB();
    assert |Upper("[B].")| == 4;
    assert Upper("B")[0] == 'B';
  }
  lemma BracketedLetter()
    ensures SingleVerdictOf("VERDICT: [B].", None) == Success(Verdict(Some("B"), Some([2]), false))
  {
    VerdictLineOf("VERDICT: [B].", "VERDICT: ", "[B].", "");
    BracketedLetterLine();
  }
  lemma TokenOfD()
    ensures VerdictToken("d") == Some("d")
  {
    assert RunEnd("d", 0, IsAsciiAlnum) == 1;
    assert "d"[0..1] == "d";
    assert TokenAt("d", 0) == Some(Hit(0, 1, ["d"]));
  }
  lemma LowerCaseLetterLine()
    ensures SingleVerdictOfLine("d", None) == Success(Verdict(Some("d"), Some([4]), false))
  {
    TokenOfD();
    assert |Upper("d")| == 1;
    assert Upper("d")[0] == 'D';
  }
  lemma LowerCaseLetter()
    ensures SingleVerdictOf("verdict: d", None) == Success(Verdict(Some("d"), Some([4]), false))
  {
    VerdictLineOf("verdict: d", "verdict: ", "d", "");
    LowerCaseLetterLine();
  }
  lemma LineBeforeMoreText()
    ensures LastVerdictLine("VERDICT: [A / D]\nMore text") == Success(VerdictLine("[A / D]", 0))
  {
    VerdictLineOf("VERDICT: [A / D]\nMore text", "VERDICT: ", "[A / D]", "\nMore text");
  }
  lemma TwoLetters(a: char, b: char, x: int, y: int)
    requires 'A' <= a <= 'Z' && 'A' <= b <= 'Z' && x == a as int - 64 && y == b as int - 64
    ensures Decoded([[a], [b]], None) == [x, y]
  {
    assert [[a], [b]][..1] == [[a]];
    assert [[a]][..0] == [];
  }
  /** Two words with separators between them. */
  lemma TwoWords(s: string, a: string, m: string, b: string)
    requires s == a + m + b && |a| > 0 && |m| > 0 && |b| > 0
    requires forall k :: 0 <= k < |a| ==> !IsVerdictSeparator(a[k])
    requires forall k :: 0 <= k < |m| ==> IsVerdictSeparator(m[k])
    requires forall k :: 0 <= k < |b| ==> !IsVerdictSeparator(b[k])
    ensures Words(s, IsVerdictSeparator) == [a, b]
  {
    assert WordEnd(s, IsVerdictSeparator) == |a| by {
      assert forall k :: 0 <= k < |a| ==> s[k] == a[k];
      assert s[|a|] == m[0];
      WordEndExact(s, |a|);
    }
    assert s[..|a|] == a && s[|a|..] == m + b;
    SkipSeparators(m + b, b);
    WordsPlain(b, IsVerdictSeparator);
  }

  lemma WordEndExact(s: string, e: nat)
    requires e < |s| && IsVerdictSeparator(s[e])
    requires forall k :: 0 <= k < e ==> !IsVerdictSeparator(s[k])
    ensures WordEnd(s, IsVerdictSeparator) == e
  {
  }

  lemma SlashTokens()
    ensures VerdictTokens("A / C") == ["A", "C"]
  {
    assert '[' !in "A / C" && ']' !in "A / C";
    TwoWords("A / C", "A", " / ", "C");
  }
  /** Upper-casing keeps the length and maps each character on its own. */
  lemma NotAbstainByShape(line: string)
    requires |line| != 7 || UpperChar(line[0]) != 'A'
    ensures Upper(line) != "ABSTAIN"
  {
    assert |Upper(line)| == |line|;
    if |line| == 7 {
      assert Upper(line)[0] == UpperChar(line[0]);
    }
  }
  lemma SlashSubsetLine()
    ensures SubsetVerdictOfLine("A / C", None) == Success(Verdict(Some("A / C"), Some([1, 3]), false))
  {
    SlashTokens();
    NotAbstainByShape("A / C");
    TwoLetters('A', 'C', 1, 3);
    UnmappedSubsetLine("A / C", ["A", "C"], [1, 3]);
  }

  /** A line that is not ABSTAIN, with tokens that decode, decodes without a mapping. */
  lemma UnmappedSubsetLine(line: string, tokens: seq<string>, scores: seq<int>)
    requires Upper(line) != "ABSTAIN" && VerdictTokens(line) == tokens && |tokens| > 0
    requires Decoded(tokens, None) == scores && |scores| > 0
    ensures SubsetVerdictOfLine(line, None) == Success(Verdict(Some(line), Some(scores), false))
  {
  }
  lemma SlashSubset()
    ensures SubsetVerdictOf("VERDICT: A / C", None) == Success(Verdict(Some("A / C"), Some([1, 3]), false))
  {
    VerdictLineOf("VERDICT: A / C", "VERDICT: ", "A / C", "");
    SlashSubsetLine();
  }
  /** Separators at the front of a string are skipped. */
  lemma {:induction false} SkipSeparators(s: string, t: string)
    requires |t| <= |s| && s[|s| - |t|..] == t
    requires forall k :: 0 <= k < |s| - |t| ==> IsVerdictSeparator(s[k])
    ensures Words(s, IsVerdictSeparator) == Words(t, IsVerdictSeparator)
    decreases |s|
  {
    if |s| > |t| {
      assert s[1..][|s[1..]| - |t|..] == t;
      SkipSeparators(s[1..], t);
    }
  }
  lemma BracketsRemoved()
    ensures RemoveBrackets("[A / D]") == "A / D"
  {
    var s := "[A / D]";
    assert s[0] == '[' && s[1..] == "A / D" + "]";
    assert RemoveBrackets(s) == RemoveBrackets(s[1..]);
    Unbracketed("A / D", "]");
    assert RemoveBrackets("]") == "";
  }
  lemma Unbracketed(a: string, b: string)
    requires '[' !in a && ']' !in a
    ensures RemoveBrackets(a + b) == a + RemoveBrackets(b)
  {
    RemoveBracketsAppend(a, b);
  }

  /** Removing brackets works piece by piece. */
  lemma {:induction false} RemoveBracketsAppend(a: string, b: string)
    ensures RemoveBrackets(a + b) == RemoveBrackets(a) + RemoveBrackets(b)
    decreases |a|
  {
    if |a| > 0 {
      assert (a + b)[0] == a[0] && (a + b)[1..] == a[1..] + b;
      RemoveBracketsAppend(a[1..], b);
    } else {
      assert a + b == b;
    }
  }
  lemma SlashWordsAD()
    ensures Words("A / D", IsVerdictSeparator) == ["A", "D"]
  {
    TwoWords("A / D", "A", " / ", "D");
  }
  lemma BracketedSubsetLine()
    ensures SubsetVerdictOfLine("[A / D]", None) == Success(Verdict(Some("[A / D]"), Some([1, 4]), false))
  {
    BracketsRemoved();
    SlashWordsAD();
    assert UpperChar('[') == '[';
    NotAbstainByShape("[A / D]");
    TwoLetters('A', 'D', 1, 4);
    UnmappedSubsetLine("[A / D]", ["A", "D"], [1, 4]);
  }
  lemma BracketedSubsetThenText()
    ensures SubsetVerdictOf("VERDICT: [A / D]\nMore text", None) == Success(Verdict(Some("[A / D]"), Some([1, 4]), false))
  {
    LineBeforeMoreText();
    BracketedSubsetLine();
  }
  lemma EmptyBracketsLine()
    ensures SubsetVerdictOfLine("[]", None).Failure?
  {
    assert RemoveBrackets("[]") == "";
    assert |Upper("[]")| == 2;
  }
  lemma EmptyBracketsFail()
    ensures SubsetVerdictOf("VERDICT: []", None).Failure?
  {
    VerdictLineOf("VERDICT: []", "VERDICT: ", "[]", "");
    EmptyBracketsLine();
  }
  lemma AbstainUpperCase()
    ensures Upper("abstain") == "ABSTAIN"
  {
    var u := Upper("abstain");
    assert u[0] == 'A' && u[1] == 'B' && u[2] == 'S' && u[3] == 'T' && u[4] == 'A' && u[5] == 'I' && u[6] == 'N';
  }
  lemma AbstainAnyCase(labelMapping: LabelMapping)
    ensures SingleVerdictOf("VERDICT: abstain", labelMapping) == Success(Abstention)
    ensures SubsetVerdictOf("VERDICT: abstain", labelMapping) == Success(Abstention)
  {
    VerdictLineOf("VERDICT: abstain", "VERDICT: ", "abstain", "");
    AbstainUpperCase();
  }
  lemma UnknownTokenLine(m: map<string, int>)
    requires "A" in m && "Z" !in m
    ensures SubsetVerdictOfLine("A, Z", Some(m)).Failure?
  {
    assert '[' !in "A, Z" && ']' !in "A, Z";
    TwoWords("A, Z", "A", ", ", "Z");
    NotAbstainByShape("A, Z");
    UnknownSubsetLine("A, Z", ["A", "Z"], m, 1);
  }
  /** A mapped line one of whose tokens is not in the mapping is rejected. */
  lemma UnknownSubsetLine(line: string, tokens: seq<string>, m: map<string, int>, k: nat)
    requires Upper(line) != "ABSTAIN" && VerdictTokens(line) == tokens
    requires k < |tokens| && tokens[k] !in m
    ensures SubsetVerdictOfLine(line, Some(m)).Failure?
  {
  }
  lemma UnknownMappedTokenFails()
    ensures SubsetVerdictOf("VERDICT: A, Z", Some(map["A" := 1])).Failure?
  {
    VerdictLineOf("VERDICT: A, Z", "VERDICT: ", "A, Z", "");
    UnknownTokenLine(map["A" := 1]);
  }

  // ---------------------------------------------------------------------
  // The lenient parsers

  /** A response without a colon has no `VERDICT:` line: both lenient parsers give the null verdict. */
  lemma LenientWithoutMarker(raw: string, labelMapping: LabelMapping)
    requires ':' !in raw
    ensures LenientSingleVerdict(raw, labelMapping) == NoVerdict
    ensures LenientSubsetVerdict(raw, labelMapping) == NoVerdict
  {
    forall q: nat | q <= |raw| ensures VerdictAt(raw, q).None? {
      if q + 8 <= |raw| {
        assert "VERDICT:"[7] == ':' && raw[q + 7] != ':';
        assert !FoldEq(raw[q + 7], "VERDICT:"[7]);
      }
    }
    ExecNone(VerdictAt, raw, 0);
  }

  /** `VERDICT: <body>` at the start of s: the first line read is body. */
  lemma FirstLineOf(s: string, prefix: string, body: string, rest: string)
    requires |body| > 0 && !IsSpace(body[0]) && !IsSpace(body[|body| - 1])
    requires forall c :: c in body ==> NotTerminator(c)
    requires |rest| == 0 || IsLineTerminator(rest[0])
    requires prefix == "VERDICT: " || prefix == "verdict: "
    requires s == prefix + body + rest
    ensures FirstVerdictLine(s) == Some(body)
  {
    VerdictAtStart(s, prefix, body, rest);
    SplitPlain(body, '\n');
    TrimStable(body);
  }

  /** A lower-case letter keeps its own character code: `d` decodes to 36, where the strict parser gives 4. */
  lemma LenientLowerCaseLine()
    ensures LenientSingleOfLine("d", None) == Verdict(Some("d"), Some([36]), false)
  {
    TokenOfD();
    assert |Upper("d")| == 1;
  }
  lemma LenientLowerCaseLetter()
    ensures LenientSingleVerdict("verdict: d", None) == Verdict(Some("d"), Some([36]), false)
  {
    FirstLineOf("verdict: d", "verdict: ", "d", "");
    LenientLowerCaseLine();
  }

  lemma TokenOfA()
    ensures VerdictToken("A") == Some("A")
  {
    assert RunEnd("A", 0, IsAsciiAlnum) == 1;
    assert "A"[0..1] == "A";
    assert TokenAt("A", 0) == Some(Hit(0, 1, ["A"]));
  }
  lemma LenientLetterLine()
    ensures LenientSingleOfLine("A", None) == Verdict(Some("A"), Some([1]), false)
  {
    TokenOfA();
    assert |Upper("A")| == 1;
  }
  /** The first of two `VERDICT:` lines is the one read. */
  lemma LenientFirstOfTwo()
    ensures LenientSingleVerdict("VERDICT: A\nVERDICT: B", None) == Verdict(Some("A"), Some([1]), false)
  {
    FirstLineOf("VERDICT: A\nVERDICT: B", "VERDICT: ", "A", "\nVERDICT: B");
    LenientLetterLine();
  }

  lemma LenientDropsUnknownLine()
    ensures LenientSubsetOfLine("A, Z", Some(map["A" := 1])) == Verdict(Some("A, Z"), Some([1]), false)
  {
    var m := Some(map["A" := 1]);
    assert '[' !in "A, Z" && ']' !in "A, Z";
    TwoWords("A, Z", "A", ", ", "Z");
    NotAbstainByShape("A, Z");
    KnownThenUnknown("A", "Z", map["A" := 1]);
    LenientLine("A, Z", ["A", "Z"], m, [1]);
  }
  /** A known label then an unknown one decode, through the mapping, to the known label's score. */
  lemma KnownThenUnknown(a: string, b: string, m: map<string, int>)
    requires |a| > 0 && |b| > 0 && a in m && b !in m
    ensures LenientDecoded([a, b], Some(m)) == [m[a]]
  {
    assert [a, b][..1] == [a];
    assert [a][..0] == [];
  }
  /** A line that is not ABSTAIN and whose tokens decode leniently to scores gives those scores. */
  lemma LenientLine(line: string, tokens: seq<string>, labelMapping: LabelMapping, scores: seq<int>)
    requires Upper(line) != "ABSTAIN" && VerdictTokens(line) == tokens
    requires forall k :: 0 <= k < |tokens| ==> |tokens[k]| > 0
    requires LenientDecoded(tokens, labelMapping) == scores && |scores| > 0
    ensures LenientSubsetOfLine(line, labelMapping) == Verdict(Some(line), Some(scores), false)
  {
  }
  /** Through a mapping an unknown label is dropped rather than rejected. */
  lemma LenientDropsUnknown()
    ensures LenientSubsetVerdict("VERDICT: A, Z", Some(map["A" := 1])) == Verdict(Some("A, Z"), Some([1]), false)
  {
    FirstLineOf("VERDICT: A, Z", "VERDICT: ", "A, Z", "");
    LenientDropsUnknownLine();
  }
}
