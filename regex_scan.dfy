/**
 * How the engine's parsers drive a regular expression over a response.
 * A pattern is given by what it matches when tried at one position (the
 * backtracking result, spelled out for each pattern where it is used); the
 * engine's `exec` tries positions from `lastIndex` upward, and the parsers'
 * `while ((match = regex.exec(raw)) !== null) lastMatch = match` loop keeps
 * the last of the non-overlapping matches.
 */
module RegexScan {
  import opened Wrappers

  /** A match: where it starts, where it ends (exclusive) and its capture groups. */
  datatype Hit = Hit(index: nat, end: nat, groups: seq<string>)

  /** Capture group k of a match. */
  function Group(h: Hit, k: nat): string
  {
    if k < |h.groups| then h.groups[k] else ""
  }

  /** The pattern tried at one position of a text. */
  type Matcher = (string, nat) -> Option<Hit>

  /** Every match starts where it was tried and is non-empty and inside the text. */
  ghost predicate Progressing(f: Matcher)
  {
    forall s: string, p: nat :: f(s, p).Some? ==> f(s, p).value.index == p && p < f(s, p).value.end <= |s|
  }

  /** `regex.exec(s)` with `lastIndex == from`: the match at the first position that has one. */
  function Exec(f: Matcher, s: string, from: nat): (r: Option<Hit>)
    ensures r.Some? ==> from <= r.value.index <= |s| && f(s, r.value.index) == r
    decreases |s| + 1 - from
  {
    if from > |s| then None
    else if f(s, from).Some? && f(s, from).value.index == from then f(s, from)
    else Exec(f, s, from + 1)
  }

  /** The last match of the global loop, started at `from` with `last` found so far. */
  function LastHit(f: Matcher, s: string, from: nat, last: Option<Hit>): Option<Hit>
    requires Progressing(f)
    decreases |s| + 1 - from
  {
    match Exec(f, s, from)
    case None => last
    case Some(h) => LastHit(f, s, h.end, Some(h))
  }

  /** The `while (regex.exec)` loop of the parsers, with `lastIndex` reset to 0. */
  method LastMatch(f: Matcher, s: string) returns (lastMatch: Option<Hit>)
    requires Progressing(f)
    ensures lastMatch == LastHit(f, s, 0, None)
  {
    var lastIndex: nat := 0;
    lastMatch := None;
    var m := Exec(f, s, lastIndex);
    while m.Some?
      invariant m == Exec(f, s, lastIndex)
      invariant LastHit(f, s, lastIndex, lastMatch) == LastHit(f, s, 0, None)
      decreases |s| + 1 - lastIndex
    {
      lastMatch := m;
      lastIndex := m.value.end;
      m := Exec(f, s, lastIndex);
    }
  }

  /** `exec` returns the first matching position at or after `from`, and finds one whenever there is one. */
  lemma {:induction false} ExecFirst(f: Matcher, s: string, from: nat, q: nat)
    requires Progressing(f)
    requires from <= q <= |s|
    ensures Exec(f, s, from).None? ==> f(s, q).None?
    ensures Exec(f, s, from).Some? && q < Exec(f, s, from).value.index ==> f(s, q).None?
    decreases q - from
  {
    if f(s, from).None? {
      if from < q {
        ExecFirst(f, s, from + 1, q);
      }
    }
  }

  lemma {:induction false} LastHitKeeps(f: Matcher, s: string, from: nat, last: Option<Hit>)
    requires Progressing(f) && last.Some?
    ensures LastHit(f, s, from, last).Some?
    decreases |s| + 1 - from
  {
    match Exec(f, s, from)
    case None =>
    case Some(h) => LastHitKeeps(f, s, h.end, Some(h));
  }

  /** The loop ends on a match after which no position matches. */
  lemma {:induction false} LastHitIsLast(f: Matcher, s: string, from: nat, last: Option<Hit>)
    requires Progressing(f)
    requires last.Some? ==> f(s, last.value.index) == last && last.value.end == from
    ensures LastHit(f, s, from, last).Some? ==>
      var h := LastHit(f, s, from, last).value;
      f(s, h.index) == Some(h) && forall q: nat :: h.end <= q <= |s| ==> f(s, q).None?
    decreases |s| + 1 - from
  {
    match Exec(f, s, from)
    case None =>
      if last.Some? {
        forall q: nat | from <= q <= |s| ensures f(s, q).None? {
          ExecFirst(f, s, from, q);
        }
      }
    case Some(h) =>
      LastHitIsLast(f, s, h.end, Some(h));
  }

  /**
   * The loop finds nothing iff the pattern matches nowhere; otherwise it
   * ends on a match after whose end the pattern matches nowhere.
   */
  lemma LastMatchCorrect(f: Matcher, s: string)
    requires Progressing(f)
    ensures LastHit(f, s, 0, None).None? <==> forall q: nat :: q <= |s| ==> f(s, q).None?
    ensures LastHit(f, s, 0, None).Some? ==>
      var h := LastHit(f, s, 0, None).value;
      f(s, h.index) == Some(h) && forall q: nat :: h.end <= q <= |s| ==> f(s, q).None?
  {
    match Exec(f, s, 0)
    case None =>
      forall q: nat | q <= |s| ensures f(s, q).None? {
        ExecFirst(f, s, 0, q);
      }
    case Some(h) =>
      LastHitKeeps(f, s, h.end, Some(h));
      LastHitIsLast(f, s, h.end, Some(h));
  }

  /** The last match lies inside the text and is what the pattern gives at its index. */
  lemma LastHitInside(f: Matcher, s: string)
    requires Progressing(f)
    ensures LastHit(f, s, 0, None).Some? ==>
      var h := LastHit(f, s, 0, None).value;
      f(s, h.index) == Some(h) && h.index < h.end <= |s|
  {
    LastMatchCorrect(f, s);
  }

  /** `exec` finds nothing when no position from `from` on matches. */
  lemma {:induction false} ExecNone(f: Matcher, s: string, from: nat)
    requires forall q: nat :: from <= q <= |s| ==> f(s, q).None?
    ensures Exec(f, s, from).None?
    decreases |s| + 1 - from
  {
    if from <= |s| {
      ExecNone(f, s, from + 1);
    }
  }
}
