/**
 * The regular expressions the engine's parsers apply to model responses,
 * each written out as what it matches when tried at one position, with
 * JavaScript's backtracking order made explicit:
 *
 *   VERDICT:\s*(.+)                                        (flag i)
 *   QUALITY:\s*observability\s*=\s*([01](?:\.\d+)?)\s*[,\s]+
 *     discriminability\s*=\s*([01](?:\.\d+)?)              (flag i)
 *   EXPERT_AGREEMENT:\s*([01](?:\.\d+)?)                   (flag i)
 *   (?:^|\n)RUBRIC:\s*\n([\s\S]+)$                         (flag i)
 *   ^\s*\d+\)\s*(.+?)\s*::\s*(.+)$                         (rubric lines)
 *   [A-Za-z0-9]+                                           (verdict tokens)
 */
module ResponsePatterns {
  import opened Wrappers
  import opened JsStrings
  import opened RegexScan

  predicate NotTerminator(c: char) { !IsLineTerminator(c) }

  predicate IsAsciiAlnum(c: char) { 'A' <= c <= 'Z' || 'a' <= c <= 'z' || IsDigit(c) }

  /** The largest r in [lo, hi) with a character `.` matches, if any. */
  function LastNonTerminator(s: string, lo: nat, hi: nat): (r: Option<nat>)
    requires lo <= hi <= |s|
    ensures r.Some? ==> lo <= r.value < hi && NotTerminator(s[r.value])
    ensures r.Some? ==> forall k :: r.value < k < hi ==> IsLineTerminator(s[k])
    ensures r.None? ==> forall k :: lo <= k < hi ==> IsLineTerminator(s[k])
    decreases hi - lo
  {
    if lo == hi then None
    else if NotTerminator(s[hi - 1]) then Some(hi - 1)
    else LastNonTerminator(s, lo, hi - 1)
  }

  // ---------------------------------------------------------------------
  // VERDICT:\s*(.+)

  /**
   * After the marker, `\s*` takes the whole run of whitespace when a
   * character follows it (that character is not a line terminator); at the
   * end of the text it gives back characters until `.+` can start on one
   * that is not a line terminator.  The group then runs to the end of the line.
   */
  function VerdictAt(s: string, p: nat): (r: Option<Hit>)
    ensures r.Some? ==> r.value.index == p && p < r.value.end <= |s| && |r.value.groups| == 1
    ensures r.Some? ==> FoldAt(s, p, "VERDICT:")
    ensures r.Some? ==> forall c :: c in r.value.groups[0] ==> NotTerminator(c)
    ensures r.Some? ==> p + 8 <= r.value.end - |r.value.groups[0]|
    ensures r.Some? ==> r.value.groups[0] == s[r.value.end - |r.value.groups[0]|..r.value.end]
    ensures r.Some? ==> r.value.end == |s| || IsLineTerminator(s[r.value.end])
  {
    if !FoldAt(s, p, "VERDICT:") then None
    else
      var q := p + 8;
      var w := RunEnd(s, q, IsSpace);
      var start := if w < |s| then Some(w) else LastNonTerminator(s, q, w);
      match start
      case None => None
      case Some(g) =>
        var e := RunEnd(s, g, NotTerminator);
        Some(Hit(p, e, [s[g..e]]))
  }

  lemma VerdictProgressing()
    ensures Progressing(VerdictAt)
  {
  }

  // ---------------------------------------------------------------------
  // [01](?:\.\d+)?

  /** Where `[01](?:\.\d+)?` ends when it starts at i: the fraction is taken whenever a digit follows the point. */
  function NumberEnd(s: string, i: nat): (r: Option<nat>)
    requires i <= |s|
    ensures r.Some? ==> i < r.value <= |s| && IsUnitNumeral(s[i..r.value])
  {
    if i < |s| && (s[i] == '0' || s[i] == '1') then
      if i + 2 < |s| && s[i + 1] == '.' && IsDigit(s[i + 2]) then
        var e := RunEnd(s, i + 2, IsDigit);
        assert s[i..e][2..] == s[i + 2..e];
        Some(e)
      else Some(i + 1)
    else None
  }

  /** A numeral `0`, `1`, `0.ddd` or `1.ddd`. */
  predicate IsUnitNumeral(g: string)
  {
    |g| > 0 && (g[0] == '0' || g[0] == '1')
    && (|g| == 1 || (|g| > 2 && g[1] == '.' && AllDigits(g[2..])))
  }

  function Pow10(n: nat): (r: nat)
    ensures r >= 1
  {
    if n == 0 then 1 else 10 * Pow10(n - 1)
  }

  /** `Number(g)` (equally `parseFloat(g)`) on such a numeral, as an exact real. */
  function NumeralValue(g: string): (v: real)
    requires IsUnitNumeral(g)
    ensures 0.0 <= v < 2.0
  {
    var whole := DigitValue(g[0]) as real;
    if |g| == 1 then whole
    else
      FractionBelowOne(g[2..]);
      whole + (ParseDigits(g[2..]) as real) / (Pow10(|g| - 2) as real)
  }

  /**
   * `Number(g)` and `parseFloat(g)`: the numeral's value, `None` standing
   * for `NaN`, which a numeral never gives.
   */
  function NumeralNumber(g: string): (r: Option<real>)
    ensures IsUnitNumeral(g) ==> r.Some? && 0.0 <= r.value < 2.0
  {
    if IsUnitNumeral(g) then Some(NumeralValue(g)) else None
  }

  lemma {:induction false} DigitsBelowPow10(ds: string)
    requires |ds| > 0 && AllDigits(ds)
    ensures ParseDigits(ds) < Pow10(|ds|)
  {
    if |ds| > 1 {
      DigitsBelowPow10(ds[..|ds| - 1]);
    }
  }

  lemma FractionBelowOne(ds: string)
    requires |ds| > 0 && AllDigits(ds)
    ensures (ParseDigits(ds) as real) / (Pow10(|ds|) as real) < 1.0
  {
    DigitsBelowPow10(ds);
    var x := ParseDigits(ds) as real;
    var y := Pow10(|ds|) as real;
    QuotientBelowOne(x, y);
  }

  lemma QuotientBelowOne(x: real, y: real)
    requires 0.0 <= x < y
    ensures x / y < 1.0
  {
  }

  // ---------------------------------------------------------------------
  // QUALITY:\s*observability\s*=\s*(num)\s*[,\s]+discriminability\s*=\s*(num)

  predicate IsQualitySep(c: char) { c == ',' || IsSpace(c) }

  function QualityAt(s: string, p: nat): (r: Option<Hit>)
    ensures r.Some? ==> r.value.index == p && p < r.value.end <= |s| && |r.value.groups| == 2
    ensures r.Some? ==> FoldAt(s, p, "QUALITY:")
    ensures r.Some? ==> IsUnitNumeral(r.value.groups[0]) && IsUnitNumeral(r.value.groups[1])
  {
    if !FoldAt(s, p, "QUALITY:") then None
    else
      var a := RunEnd(s, p + 8, IsSpace);
      if !FoldAt(s, a, "OBSERVABILITY") then None
      else
        var b := RunEnd(s, a + 13, IsSpace);
        if !(b < |s| && s[b] == '=') then None
        else
          var c := RunEnd(s, b + 1, IsSpace);
          match NumberEnd(s, c)
          case None => None
          case Some(n1) =>
            var d := RunEnd(s, n1, IsQualitySep);
            if d == n1 || !FoldAt(s, d, "DISCRIMINABILITY") then None
            else
              var e := RunEnd(s, d + 16, IsSpace);
              if !(e < |s| && s[e] == '=') then None
              else
                var f := RunEnd(s, e + 1, IsSpace);
                match NumberEnd(s, f)
                case None => None
                case Some(n2) => Some(Hit(p, n2, [s[c..n1], s[f..n2]]))
  }

  lemma QualityProgressing()
    ensures Progressing(QualityAt)
  {
  }

  // ---------------------------------------------------------------------
  // EXPERT_AGREEMENT:\s*(num)

  function ExpertAgreementAt(s: string, p: nat): (r: Option<Hit>)
    ensures r.Some? ==> r.value.index == p && p < r.value.end <= |s| && |r.value.groups| == 1
    ensures r.Some? ==> FoldAt(s, p, "EXPERT_AGREEMENT:")
    ensures r.Some? ==> IsUnitNumeral(r.value.groups[0])
  {
    if !FoldAt(s, p, "EXPERT_AGREEMENT:") then None
    else
      var a := RunEnd(s, p + 17, IsSpace);
      match NumberEnd(s, a)
      case None => None
      case Some(n) => Some(Hit(p, n, [s[a..n]]))
  }

  lemma ExpertAgreementProgressing()
    ensures Progressing(ExpertAgreementAt)
  {
  }

  // ---------------------------------------------------------------------
  // (?:^|\n)RUBRIC:\s*\n([\s\S]+)$

  /** The largest j in [lo, hi) holding a newline that is not the last character of s. */
  function LastInnerNewline(s: string, lo: nat, hi: nat): (r: Option<nat>)
    requires lo <= hi <= |s|
    ensures r.Some? ==> lo <= r.value < hi && s[r.value] == '\n' && r.value + 1 < |s|
    decreases hi - lo
  {
    if lo == hi then None
    else if s[hi - 1] == '\n' && hi < |s| then Some(hi - 1)
    else LastInnerNewline(s, lo, hi - 1)
  }

  /**
   * `RUBRIC:` at q, then `\s*\n`: the whitespace run must hold a newline;
   * the last one that leaves a non-empty remainder ends it, and the group is
   * the rest of the text.
   */
  function RubricBody(s: string, q: nat): (r: Option<string>)
    ensures r.Some? ==> |r.value| > 0 && q + 7 < |s| - |r.value| && r.value == s[|s| - |r.value|..]
    ensures r.Some? ==> FoldAt(s, q, "RUBRIC:")
  {
    if !FoldAt(s, q, "RUBRIC:") then None
    else
      var w := RunEnd(s, q + 7, IsSpace);
      match LastInnerNewline(s, q + 7, w)
      case None => None
      case Some(j) => Some(s[j + 1..])
  }

  /** `^` holds only at 0; otherwise the marker follows a newline at p. */
  function RubricMarkerAt(s: string, p: nat): (r: Option<Hit>)
    ensures r.Some? ==> r.value.index == p && p < r.value.end <= |s| && |r.value.groups| == 1
    ensures r.Some? ==> p == 0 || s[p] == '\n'
  {
    if p == 0 && RubricBody(s, 0).Some? then Some(Hit(0, |s|, [RubricBody(s, 0).value]))
    else if p < |s| && s[p] == '\n' && RubricBody(s, p + 1).Some? then Some(Hit(p, |s|, [RubricBody(s, p + 1).value]))
    else None
  }

  lemma RubricMarkerProgressing()
    ensures Progressing(RubricMarkerAt)
  {
  }

  // ---------------------------------------------------------------------
  // ^\s*\d+\)\s*(.+?)\s*::\s*(.+)$

  /**
   * What follows the label from b: `\s*::\s*(.+)$`.  The group must reach the
   * end of the line without a line terminator; when the line ends in the
   * whitespace after `::`, the second `\s*` gives back one character.
   */
  function CriteriaAt(line: string, b: nat): (r: Option<string>)
    requires b <= |line|
    ensures r.Some? ==> |r.value| > 0 && forall c :: c in r.value ==> NotTerminator(c)
  {
    var i := RunEnd(line, b, IsSpace);
    if !(i + 2 <= |line| && line[i] == ':' && line[i + 1] == ':') then None
    else
      var j := RunEnd(line, i + 2, IsSpace);
      if j < |line| then
        if RunEnd(line, j, NotTerminator) == |line| then Some(line[j..]) else None
      else if i + 2 < j && NotTerminator(line[j - 1]) then Some(line[j - 1..])
      else None
  }

  /** The lazy label `.+?` from a: the shortest extension, over non-terminators, after which the criteria match. */
  function LazyLabel(line: string, a: nat, b: nat): (r: Option<(string, string)>)
    requires a < b
    ensures r.Some? ==> |r.value.0| > 0 && |r.value.1| > 0
    decreases |line| + 1 - b
  {
    if b > |line| || IsLineTerminator(line[b - 1]) then None
    else
      match CriteriaAt(line, b)
      case Some(g) => Some((line[a..b], g))
      case None => LazyLabel(line, a, b + 1)
  }

  /** The whitespace after `)` is tried from the longest run down to none. */
  function LabelSearch(line: string, c: nat, k: nat): (r: Option<(string, string)>)
    requires c <= k <= |line|
    ensures r.Some? ==> |r.value.0| > 0 && |r.value.1| > 0
    decreases k - c
  {
    match LazyLabel(line, k, k + 1)
    case Some(m) => Some(m)
    case None => if k == c then None else LabelSearch(line, c, k - 1)
  }

  /** The label and criteria groups of a rubric line, if it has the form `N) label :: criteria`. */
  function RubricLineGroups(line: string): (r: Option<(string, string)>)
    ensures r.Some? ==> |r.value.0| > 0 && |r.value.1| > 0
  {
    var a := RunEnd(line, 0, IsSpace);
    var d := RunEnd(line, a, IsDigit);
    if d == a || !(d < |line| && line[d] == ')') then None
    else LabelSearch(line, d + 1, RunEnd(line, d + 1, IsSpace))
  }

  // ---------------------------------------------------------------------
  // [A-Za-z0-9]+

  function TokenAt(s: string, p: nat): (r: Option<Hit>)
    ensures r.Some? ==> r.value.index == p && p < r.value.end <= |s| && |r.value.groups| == 1
    ensures r.Some? ==> |r.value.groups[0]| > 0 && forall c :: c in r.value.groups[0] ==> IsAsciiAlnum(c)
  {
    if p < |s| && IsAsciiAlnum(s[p]) then
      var e := RunEnd(s, p, IsAsciiAlnum);
      Some(Hit(p, e, [s[p..e]]))
    else None
  }

  /** `s.match(/[A-Za-z0-9]+/)`: the first maximal run of ASCII letters and digits, if there is one. */
  lemma {:induction false} FirstToken(s: string)
    ensures Exec(TokenAt, s, 0).None? <==> forall i :: 0 <= i < |s| ==> !IsAsciiAlnum(s[i])
    ensures Exec(TokenAt, s, 0).Some? ==>
      var h := Exec(TokenAt, s, 0).value;
      (forall i :: 0 <= i < h.index ==> !IsAsciiAlnum(s[i])) &&
      h.groups[0] == s[h.index..h.end] && (h.end == |s| || !IsAsciiAlnum(s[h.end]))
  {
    assert Progressing(TokenAt);
    var r := Exec(TokenAt, s, 0);
    forall i | 0 <= i < |s| && (r.None? || i < r.value.index)
      ensures !IsAsciiAlnum(s[i])
    {
      ExecFirst(TokenAt, s, 0, i);
    }
  }
}
