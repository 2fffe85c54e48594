/**
 * The few JavaScript string and number conversions the engine relies on:
 * `String(n)` for integers, `Number(token)`, `split(",")`, `join(",")` and
 * the default `Array.prototype.sort`, which orders by string comparison.
 */
module JsStrings {

  // ---------------------------------------------------------------------
  // Decimal digits

  predicate IsDigit(c: char) { '0' <= c <= '9' }

  predicate AllDigits(s: string) { forall i :: 0 <= i < |s| ==> IsDigit(s[i]) }

  function DigitChar(d: nat): (c: char)
    requires d < 10
    ensures IsDigit(c)
  {
    ('0' as int + d) as char
  }

  function DigitValue(c: char): (d: nat)
    requires IsDigit(c)
    ensures d < 10
  {
    c as int - '0' as int
  }

  /** `String(n)` for a non-negative integer: its decimal digits, most significant first. */
  function NatToString(n: nat): (s: string)
    ensures |s| > 0 && AllDigits(s)
    decreases n
  {
    if n < 10 then [DigitChar(n)] else NatToString(n / 10) + [DigitChar(n % 10)]
  }

  /** The value of a non-empty string of decimal digits (leading zeros allowed). */
  function ParseDigits(s: string): nat
    requires |s| > 0 && AllDigits(s)
  {
    if |s| == 1 then DigitValue(s[0])
    else 10 * ParseDigits(s[..|s| - 1]) + DigitValue(s[|s| - 1])
  }

  lemma {:induction false} ParseNatToString(n: nat)
    ensures ParseDigits(NatToString(n)) == n
    decreases n
  {
    if n >= 10 {
      var s := NatToString(n);
      ParseNatToString(n / 10);
      assert s[..|s| - 1] == NatToString(n / 10);
    }
  }

  /** `String(i)` for an integer. */
  function IntToString(i: int): (s: string)
    ensures |s| > 0 && ',' !in s
  {
    if i < 0 then "-" + NatToString(-i) else NatToString(i)
  }

  /** A JavaScript number as it arises from `Number(token)` on the engine's keys. */
  datatype JsNumber = Int(i: int) | NaN

  /**
   * `Number(token)` for the tokens the engine produces: the empty string is
   * 0, "NaN" is NaN, an optionally negated run of decimal digits is that
   * integer; any other spelling is treated as NaN.
   */
  function ParseNumber(t: string): JsNumber
  {
    if |t| == 0 then Int(0)
    else if AllDigits(t) then Int(ParseDigits(t))
    else if |t| > 1 && t[0] == '-' && AllDigits(t[1..]) then Int(0 - ParseDigits(t[1..]) as int)
    else NaN
  }

  /** `String(x)` for a number. */
  function NumberToString(x: JsNumber): (s: string)
    ensures ',' !in s
  {
    match x
    case Int(i) => IntToString(i)
    case NaN => "NaN"
  }

  /** Printing an integer and parsing it back gives the integer. */
  lemma ParseIntToString(i: int)
    ensures ParseNumber(IntToString(i)) == Int(i)
  {
    if i < 0 {
      var s := IntToString(i);
      assert s[1..] == NatToString(-i);
      assert !IsDigit(s[0]);
      ParseNatToString(-i);
    } else {
      ParseNatToString(i);
    }
  }

  lemma IntToStringInjective(i: int, j: int)
    requires IntToString(i) == IntToString(j)
    ensures i == j
  {
    ParseIntToString(i);
    ParseIntToString(j);
  }

  /** Number and String are mutually inverse on what String produces. */
  lemma ParseNumberToString(x: JsNumber)
    ensures ParseNumber(NumberToString(x)) == x
  {
    match x
    case Int(i) => ParseIntToString(i);
    case NaN =>
      assert !IsDigit("NaN"[0]);
  }

  // ---------------------------------------------------------------------
  // split and join on a separator

  /** `s.split(sep)` for a one-character separator: never empty; "" splits into [""]. */
  function Split(s: string, sep: char): (r: seq<string>)
    ensures |r| > 0
    ensures forall k :: 0 <= k < |r| ==> sep !in r[k]
  {
    if |s| == 0 then [""]
    else
      var rest := Split(s[1..], sep);
      if s[0] == sep then [""] + rest else [[s[0]] + rest[0]] + rest[1..]
  }

  /** `ts.join(sep)`. */
  function Join(ts: seq<string>, sep: string): string
  {
    if |ts| == 0 then "" else if |ts| == 1 then ts[0] else ts[0] + sep + Join(ts[1..], sep)
  }

  predicate NoSep(ts: seq<string>, sep: char)
  {
    forall k :: 0 <= k < |ts| ==> sep !in ts[k]
  }

  lemma {:induction false} SplitPlain(t: string, sep: char)
    requires sep !in t
    ensures Split(t, sep) == [t]
  {
    if |t| > 0 {
      SplitPlain(t[1..], sep);
      assert [t[0]] + t[1..] == t;
    }
  }

  lemma {:induction false} SplitSep(t: string, u: string, sep: char)
    requires sep !in t
    ensures Split(t + [sep] + u, sep) == [t] + Split(u, sep)
  {
    if |t| == 0 {
      assert t + [sep] + u == [sep] + u;
      assert (t + [sep] + u)[1..] == u;
    } else {
      assert (t + [sep] + u)[1..] == t[1..] + [sep] + u;
      SplitSep(t[1..], u, sep);
      assert [t[0]] + t[1..] == t;
    }
  }

  /** Splitting a join gives the tokens back when there is one and none holds the separator. */
  lemma {:induction false} SplitJoin(ts: seq<string>, sep: char)
    requires |ts| > 0 && NoSep(ts, sep)
    ensures Split(Join(ts, [sep]), sep) == ts
  {
    if |ts| == 1 {
      SplitPlain(ts[0], sep);
    } else {
      SplitSep(ts[0], Join(ts[1..], [sep]), sep);
      SplitJoin(ts[1..], sep);
    }
  }

  // ---------------------------------------------------------------------
  // String order and the default sort

  /** JavaScript's `a <= b` on strings: lexicographic by character, a prefix first. */
  predicate StrLe(a: string, b: string)
  {
    if |a| == 0 then true
    else if |b| == 0 then false
    else if a[0] < b[0] then true
    else if a[0] > b[0] then false
    else StrLe(a[1..], b[1..])
  }

  lemma {:induction false} StrLeTotal(a: string, b: string)
    ensures StrLe(a, b) || StrLe(b, a)
  {
    if |a| > 0 && |b| > 0 && a[0] == b[0] {
      StrLeTotal(a[1..], b[1..]);
    }
  }

  lemma {:induction false} StrLeAntisymmetric(a: string, b: string)
    requires StrLe(a, b) && StrLe(b, a)
    ensures a == b
  {
    if |a| > 0 && |b| > 0 {
      StrLeAntisymmetric(a[1..], b[1..]);
      assert a == [a[0]] + a[1..] && b == [b[0]] + b[1..];
    }
  }

  lemma {:induction false} StrLeTransitive(a: string, b: string, c: string)
    requires StrLe(a, b) && StrLe(b, c)
    ensures StrLe(a, c)
  {
    if |a| > 0 && |b| > 0 && |c| > 0 && a[0] == b[0] && b[0] == c[0] {
      StrLeTransitive(a[1..], b[1..], c[1..]);
    }
  }

  predicate SortedStrings(s: seq<string>)
  {
    forall i, j :: 0 <= i < j < |s| ==> StrLe(s[i], s[j])
  }

  function InsertString(x: string, s: seq<string>): (r: seq<string>)
    ensures |r| == |s| + 1
  {
    if |s| == 0 then [x]
    else if StrLe(x, s[0]) then [x] + s
    else [s[0]] + InsertString(x, s[1..])
  }

  /** `[...xs].sort()` on strings. */
  function SortStrings(s: seq<string>): (r: seq<string>)
    ensures |r| == |s|
  {
    if |s| == 0 then [] else InsertString(s[0], SortStrings(s[1..]))
  }

  lemma InsertStringCorrect(x: string, s: seq<string>)
    requires SortedStrings(s)
    ensures SortedStrings(InsertString(x, s))
    ensures multiset(InsertString(x, s)) == multiset(s) + multiset{x}
  {
    InsertStringSorted(x, s);
    InsertStringPerm(x, s);
  }

  lemma {:induction false} InsertStringPerm(x: string, s: seq<string>)
    ensures multiset(InsertString(x, s)) == multiset(s) + multiset{x}
  {
    if |s| > 0 && !StrLe(x, s[0]) {
      InsertStringPerm(x, s[1..]);
      assert s == [s[0]] + s[1..];
    }
  }

  /** A string at most every element of a sorted list can go in front of it. */
  lemma ConsSorted(x: string, s: seq<string>)
    requires SortedStrings(s) && forall j :: 0 <= j < |s| ==> StrLe(x, s[j])
    ensures SortedStrings([x] + s)
  {
    var r := [x] + s;
    forall i, j | 0 <= i < j < |r| ensures StrLe(r[i], r[j]) {
      assert r[j] == s[j - 1];
      if i > 0 {
        assert r[i] == s[i - 1];
      }
    }
  }

  lemma {:induction false} InsertStringSorted(x: string, s: seq<string>)
    requires SortedStrings(s)
    ensures SortedStrings(InsertString(x, s))
  {
    if |s| > 0 {
      if StrLe(x, s[0]) {
        forall j | 0 <= j < |s| ensures StrLe(x, s[j]) {
          if j > 0 {
            StrLeTransitive(x, s[0], s[j]);
          }
        }
        ConsSorted(x, s);
      } else {
        StrLeTotal(x, s[0]);
        var rest := s[1..];
        assert SortedStrings(rest) by {
          forall i, j | 0 <= i < j < |rest| ensures StrLe(rest[i], rest[j]) {
            assert rest[i] == s[i + 1] && rest[j] == s[j + 1];
          }
        }
        InsertStringSorted(x, rest);
        InsertStringPerm(x, rest);
        var r := InsertString(x, rest);
        forall j | 0 <= j < |r| ensures StrLe(s[0], r[j]) {
          assert r[j] in multiset(rest) + multiset{x};
          if r[j] != x {
            assert r[j] in rest;
            var k :| 0 <= k < |rest| && rest[k] == r[j];
            assert rest[k] == s[k + 1];
          }
        }
        ConsSorted(s[0], r);
      }
    }
  }

  /** The default sort orders the strings and permutes them. */
  lemma {:induction false} SortStringsCorrect(s: seq<string>)
    ensures SortedStrings(SortStrings(s))
    ensures multiset(SortStrings(s)) == multiset(s)
  {
    if |s| > 0 {
      SortStringsCorrect(s[1..]);
      InsertStringCorrect(s[0], SortStrings(s[1..]));
      assert s == [s[0]] + s[1..];
    }
  }

  lemma SortedHeadLe(a: seq<string>, x: string)
    requires SortedStrings(a) && x in a
    ensures StrLe(a[0], x)
  {
    var k :| 0 <= k < |a| && a[k] == x;
    if k == 0 {
      StrLeTotal(x, x);
    }
  }

  lemma TailsAgree(a: seq<string>, b: seq<string>)
    requires |a| > 0 && |b| > 0 && a[0] == b[0] && multiset(a) == multiset(b)
    requires SortedStrings(a) && SortedStrings(b)
    ensures multiset(a[1..]) == multiset(b[1..])
    ensures SortedStrings(a[1..]) && SortedStrings(b[1..])
  {
    assert a == [a[0]] + a[1..] && b == [b[0]] + b[1..];
    assert multiset(a[1..]) == multiset(a) - multiset{a[0]};
    assert multiset(b[1..]) == multiset(b) - multiset{b[0]};
  }

  /**
   * Two ordered permutations of the same strings are equal, so the result
   * does not depend on the sorting algorithm or on the input order.
   */
  lemma {:induction false} SortedUnique(a: seq<string>, b: seq<string>)
    requires SortedStrings(a) && SortedStrings(b) && multiset(a) == multiset(b)
    ensures a == b
  {
    assert |a| == |multiset(a)| == |b|;
    if |a| > 0 {
      assert b[0] in multiset(a) && a[0] in multiset(b);
      SortedHeadLe(a, b[0]);
      SortedHeadLe(b, a[0]);
      StrLeAntisymmetric(a[0], b[0]);
      TailsAgree(a, b);
      SortedUnique(a[1..], b[1..]);
      assert a == [a[0]] + a[1..] && b == [b[0]] + b[1..];
    }
  }

  lemma SortStringsOrderInsensitive(s: seq<string>, t: seq<string>)
    requires multiset(s) == multiset(t)
    ensures SortStrings(s) == SortStrings(t)
  {
    SortStringsCorrect(s);
    SortStringsCorrect(t);
    SortedUnique(SortStrings(s), SortStrings(t));
  }

  lemma SortSorted(s: seq<string>)
    requires SortedStrings(s)
    ensures SortStrings(s) == s
  {
    SortStringsCorrect(s);
    SortedUnique(SortStrings(s), s);
  }

  /** Among single-digit numbers, string order is numeric order. */
  lemma SingleDigitOrder(a: int, b: int)
    requires 0 <= a < 10 && 0 <= b < 10
    ensures StrLe(IntToString(a), IntToString(b)) <==> a <= b
  {
    assert IntToString(a) == [DigitChar(a)] && IntToString(b) == [DigitChar(b)];
    assert [DigitChar(a)][1..] == [];
  }

  /** With two digits the string order departs from numeric order: 10 sorts before 9. */
  lemma MultiDigitOrder()
    ensures StrLe(IntToString(10), IntToString(9)) && !StrLe(IntToString(9), IntToString(10))
  {
    assert IntToString(10) == "10";
    assert IntToString(9) == "9";
  }

  // ---------------------------------------------------------------------
  // Whitespace, trim and case

  /** The characters `.` in a regular expression does not match. */
  predicate IsLineTerminator(c: char)
  {
    c == '\n' || c == '\r' || c == '\U{2028}' || c == '\U{2029}'
  }

  /** The characters of `\s` in a regular expression, and those `trim()` removes. */
  predicate IsSpace(c: char)
  {
    c in SpaceChars
  }

  /** The line terminators, the Unicode space separators and the other ECMAScript white space. */
  const SpaceChars: set<char> := {
    '\n', '\r', '\U{2028}', '\U{2029}', '\t', '\U{000B}', '\U{000C}', ' ', '\U{00A0}', '\U{1680}',
    '\U{2000}', '\U{2001}', '\U{2002}', '\U{2003}', '\U{2004}', '\U{2005}', '\U{2006}', '\U{2007}',
    '\U{2008}', '\U{2009}', '\U{200A}', '\U{202F}', '\U{205F}', '\U{3000}', '\U{FEFF}'
  }

  predicate AllSpace(s: string)
  {
    forall i :: 0 <= i < |s| ==> IsSpace(s[i])
  }

  /** The number of whitespace characters `trimStart` removes. */
  function LeadingSpaces(s: string): (n: nat)
    ensures n <= |s|
  {
    if |s| > 0 && IsSpace(s[0]) then 1 + LeadingSpaces(s[1..]) else 0
  }

  function TrimStart(s: string): (r: string)
    ensures |r| <= |s| && r == s[|s| - |r|..]
  {
    s[LeadingSpaces(s)..]
  }

  /** TrimStart removes leading whitespace, and only that. */
  lemma {:induction false} TrimStartSpaces(s: string)
    ensures var r := TrimStart(s);
      (|r| > 0 ==> !IsSpace(r[0])) && AllSpace(s[..|s| - |r|])
  {
    if |s| > 0 && IsSpace(s[0]) {
      var tail := s[1..];
      TrimStartSpaces(tail);
      var k := LeadingSpaces(tail);
      assert TrimStart(s) == tail[k..];
      var p, q := s[..1 + k], tail[..k];
      assert p == [s[0]] + q;
      forall j | 0 <= j < |p| ensures IsSpace(p[j]) {
        if j > 0 {
          assert p[j] == q[j - 1];
        }
      }
    }
  }

  /** The number of whitespace characters `trimEnd` removes. */
  function TrailingSpaces(s: string): (n: nat)
    ensures n <= |s|
  {
    if |s| > 0 && IsSpace(s[|s| - 1]) then 1 + TrailingSpaces(s[..|s| - 1]) else 0
  }

  function TrimEnd(s: string): (r: string)
    ensures |r| <= |s| && r == s[..|r|]
  {
    s[..|s| - TrailingSpaces(s)]
  }

  /** TrimEnd removes trailing whitespace, and only that. */
  lemma {:induction false} TrimEndSpaces(s: string)
    ensures var r := TrimEnd(s);
      (|r| > 0 ==> !IsSpace(r[|r| - 1])) && AllSpace(s[|r|..])
  {
    if |s| > 0 && IsSpace(s[|s| - 1]) {
      var front := s[..|s| - 1];
      TrimEndSpaces(front);
      var k := TrailingSpaces(front);
      assert TrimEnd(s) == front[..|front| - k];
      var p, q := s[|front| - k..], front[|front| - k..];
      assert p == q + [s[|s| - 1]];
      forall j | 0 <= j < |p| ensures IsSpace(p[j]) {
        if j < |q| {
          assert p[j] == q[j];
        }
      }
    }
  }

  /** `s.trim()`. */
  function Trim(s: string): (r: string)
  {
    TrimEnd(TrimStart(s))
  }

  /** Trimming removes exactly the surrounding whitespace: a trimmed string is empty iff it was all space. */
  lemma TrimEmpty(s: string)
    ensures Trim(s) == "" <==> AllSpace(s)
  {
    var t := TrimStart(s);
    TrimStartSpaces(s);
    TrimEndSpaces(t);
    assert s == s[..|s| - |t|] + t;
  }

  /** The result is the slice of the input that starts after the leading whitespace. */
  lemma TrimShape(s: string)
    ensures |s| - |TrimStart(s)| + |Trim(s)| <= |s|
    ensures Trim(s) == s[|s| - |TrimStart(s)|..|s| - |TrimStart(s)| + |Trim(s)|]
  {
    var t := TrimStart(s);
    var r := TrimEnd(t);
    assert Trim(s) == r;
    PrefixOfSuffix(s, t, r);
  }

  /** A prefix of a suffix is a slice. */
  lemma PrefixOfSuffix(s: string, t: string, r: string)
    requires |t| <= |s| && t == s[|s| - |t|..] && |r| <= |t| && r == t[..|r|]
    ensures r == s[|s| - |t|..|s| - |t| + |r|]
  {
  }

  lemma TrimEnds(s: string)
    ensures Trimmed(Trim(s))
  {
    var t := TrimStart(s);
    var r := TrimEnd(t);
    TrimStartSpaces(s);
    TrimEndSpaces(t);
    if |r| > 0 {
      assert r[0] == t[0];
    }
  }

  lemma TrimStartStable(s: string)
    requires |s| == 0 || !IsSpace(s[0])
    ensures TrimStart(s) == s
  {
  }

  /** A string that neither starts nor ends with whitespace is its own trim. */
  lemma TrimStable(s: string)
    requires |s| == 0 || (!IsSpace(s[0]) && !IsSpace(s[|s| - 1]))
    ensures Trim(s) == s
  {
    TrimStartStable(s);
  }

  /** Trimming twice is trimming once. */
  lemma TrimIdempotent(s: string)
    ensures Trim(Trim(s)) == Trim(s)
  {
    var r := Trim(s);
    TrimEnds(s);
    TrimStartStable(r);
  }

  /** `toUpperCase` of one character, for the characters whose upper case is a single ASCII letter. */
  function UpperChar(c: char): (u: char)
    ensures 'a' <= c <= 'z' ==> u as int == c as int - 32
    ensures !('a' <= c <= 'z') && c != '\U{0131}' && c != '\U{017F}' ==> u == c
  {
    if 'a' <= c <= 'z' then (c as int - 32) as char
    else if c == '\U{0131}' then 'I'
    else if c == '\U{017F}' then 'S'
    else c
  }

  function Upper(s: string): (r: string)
    ensures |r| == |s| && forall i :: 0 <= i < |s| ==> r[i] == UpperChar(s[i])
  {
    seq(|s|, i requires 0 <= i < |s| => UpperChar(s[i]))
  }

  /** `toLowerCase` of one character, for the ASCII upper-case letters; every other character is kept. */
  function LowerChar(c: char): (l: char)
    ensures 'A' <= c <= 'Z' ==> l as int == c as int + 32
    ensures !('A' <= c <= 'Z') ==> l == c
  {
    if 'A' <= c <= 'Z' then (c as int + 32) as char else c
  }

  function Lower(s: string): (r: string)
    ensures |r| == |s| && forall i :: 0 <= i < |s| ==> r[i] == LowerChar(s[i])
  {
    seq(|s|, i requires 0 <= i < |s| => LowerChar(s[i]))
  }

  /** Lower-casing twice is lower-casing once. */
  lemma LowerIdempotent(s: string)
    ensures Lower(Lower(s)) == Lower(s)
  {
  }

  /** Lower-casing leaves whitespace where it was, so a trimmed string stays trimmed. */
  lemma {:induction false} LowerKeepsTrimmed(s: string)
    requires Trimmed(s)
    ensures Trimmed(Lower(s))
    ensures Trim(Lower(s)) == Lower(s)
  {
    var r := Lower(s);
    if |s| > 0 {
      assert r[0] == LowerChar(s[0]) && r[|s| - 1] == LowerChar(s[|s| - 1]);
      assert !IsSpace(r[0]) && !IsSpace(r[|r| - 1]);
    }
    TrimStable(r);
  }

  /**
   * A character of the text matches a pattern character under the `i`
   * flag (without `u`): equal, or an ASCII lower-case letter of that
   * upper-case one.  Non-ASCII characters never fold onto ASCII ones.
   */
  predicate FoldEq(c: char, pat: char)
  {
    c == pat || ('a' <= c <= 'z' && c as int - 32 == pat as int)
  }

  /** The upper-case pattern `pat` occurs case-insensitively at position p of s. */
  predicate FoldAt(s: string, p: nat, pat: string)
  {
    p + |pat| <= |s| && forall k :: 0 <= k < |pat| ==> FoldEq(s[p + k], pat[k])
  }

  /** Lower-case text matches its upper-case pattern. */
  lemma FoldUpper(c: char)
    requires 'a' <= c <= 'z'
    ensures FoldEq(c, UpperChar(c)) && FoldEq(UpperChar(c), UpperChar(c))
  {
  }

  /** The maximal run of characters satisfying `inRun`, from position p: the index it ends at. */
  function RunEnd(s: string, p: nat, inRun: char -> bool): (e: nat)
    requires p <= |s|
    ensures p <= e <= |s|
    ensures forall k :: p <= k < e ==> inRun(s[k])
    ensures e < |s| ==> !inRun(s[e])
    decreases |s| - p
  {
    if p < |s| && inRun(s[p]) then RunEnd(s, p + 1, inRun) else p
  }

  /**
   * Maximal non-empty runs of characters that are not separators, in order:
   * `s.split(/[<seps>]+/).filter(t => t.length > 0)`.
   */
  function Words(s: string, isSep: char -> bool): (r: seq<string>)
    ensures forall k :: 0 <= k < |r| ==> |r[k]| > 0 && forall j :: 0 <= j < |r[k]| ==> !isSep(r[k][j])
    decreases |s|
  {
    if |s| == 0 then []
    else if isSep(s[0]) then Words(s[1..], isSep)
    else
      var e := WordEnd(s, isSep);
      [s[..e]] + Words(s[e..], isSep)
  }

  /** Where the word at the start of s ends. */
  function WordEnd(s: string, isSep: char -> bool): (e: nat)
    ensures e <= |s|
    ensures forall k :: 0 <= k < e ==> !isSep(s[k])
    ensures e < |s| ==> isSep(s[e])
    decreases |s|
  {
    if |s| > 0 && !isSep(s[0]) then 1 + WordEnd(s[1..], isSep) else 0
  }

  /** Words of a string with no separator character: the string itself, if it is not empty. */
  lemma WordsPlain(s: string, isSep: char -> bool)
    requires |s| > 0 && forall j :: 0 <= j < |s| ==> !isSep(s[j])
    ensures Words(s, isSep) == [s]
  {
    var e := WordEnd(s, isSep);
    assert s[..e] == s && s[e..] == [];
  }

  /** `parts.map(t => t.trim()).filter(t => t.length > 0)`. */
  function NonBlankTrimmed(parts: seq<string>): (r: seq<string>)
    ensures |r| <= |parts|
    ensures forall k :: 0 <= k < |r| ==> |r[k]| > 0
  {
    if |parts| == 0 then []
    else
      var t := Trim(parts[0]);
      (if |t| > 0 then [t] else []) + NonBlankTrimmed(parts[1..])
  }

  /** A string that neither starts nor ends with whitespace. */
  predicate Trimmed(t: string)
  {
    |t| == 0 || (!IsSpace(t[0]) && !IsSpace(t[|t| - 1]))
  }

  /** Each kept piece is trimmed: it neither starts nor ends with whitespace. */
  lemma {:induction false} NonBlankTrimmedEnds(parts: seq<string>)
    ensures forall k :: 0 <= k < |NonBlankTrimmed(parts)| ==> Trimmed(NonBlankTrimmed(parts)[k])
  {
    if |parts| > 0 {
      TrimEnds(parts[0]);
      NonBlankTrimmedEnds(parts[1..]);
    }
  }

  /** Each kept piece is the trim of a piece, and lies within it. */
  lemma {:induction false} NonBlankTrimmedFrom(parts: seq<string>, sep: char)
    requires forall j :: 0 <= j < |parts| ==> sep !in parts[j]
    ensures forall k :: 0 <= k < |NonBlankTrimmed(parts)| ==> sep !in NonBlankTrimmed(parts)[k]
  {
    if |parts| > 0 {
      TrimWithin(parts[0]);
      NonBlankTrimmedFrom(parts[1..], sep);
    }
  }

  /** Every character of a trimmed string comes from the string. */
  lemma TrimWithin(s: string)
    ensures forall c :: c in Trim(s) ==> c in s
  {
    var t := TrimStart(s);
    SliceWithin(s, |s| - |t|, |s|, t);
    SliceWithin(t, 0, |TrimEnd(t)|, TrimEnd(t));
  }

  lemma SliceWithin(s: string, lo: nat, hi: nat, t: string)
    requires lo <= hi <= |s| && t == s[lo..hi]
    ensures forall c :: c in t ==> c in s
  {
    forall c | c in t ensures c in s {
      var k :| 0 <= k < |t| && t[k] == c;
      assert s[lo + k] == c;
    }
  }

  /** `String.prototype.charCodeAt(0)` on a string starting with c: its first UTF-16 code unit. */
  function FirstCodeUnit(c: char): (u: int)
    ensures 0 <= u < 0x1_0000
    ensures c as int < 0x1_0000 ==> u == c as int
  {
    if c as int < 0x1_0000 then c as int else 0xD800 + (c as int - 0x1_0000) / 0x400
  }

  /** Every character of a word comes from the string. */
  lemma {:induction false} WordsWithin(s: string, isSep: char -> bool, k: nat)
    requires k < |Words(s, isSep)|
    ensures forall c :: c in Words(s, isSep)[k] ==> c in s
    decreases |s|
  {
    if isSep(s[0]) {
      WordsWithin(s[1..], isSep, k);
    } else {
      var e := WordEnd(s, isSep);
      if k > 0 {
        WordsWithin(s[e..], isSep, k - 1);
      }
    }
  }
}
