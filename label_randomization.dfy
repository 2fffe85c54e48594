/**
 * Label randomisation (`utils/randomize.ts`): the letters `A`, `B`, … of a
 * scale are given the scores 1..n in an order chosen by a descending
 * Fisher–Yates pass, seeded for reproducibility or driven by `Math.random`.
 * A label mapping is a JavaScript record; it is kept here as its list of
 * entries in insertion order, which is the order `Object.entries` reports
 * for keys that are not array indices.
 */
module LabelRandomization {
  import opened Wrappers

  /** The record `{ label: score, ... }` as its entries in insertion order. */
  type Entries = seq<(string, int)>

  /** Scale sizes whose letters `String.fromCharCode(65 + i)` stay below the surrogate range. */
  const MaxScale: nat := 0xD800 - 65

  /** `String.fromCharCode(65 + i)`, the i-th letter label. */
  function Letter(i: nat): (l: string)
    requires i < MaxScale
    ensures |l| == 1 && l[0] as int == 65 + i
  {
    [(65 + i) as char]
  }

  /** The first n letters, `A` first. */
  function Letters(n: nat): (ls: seq<string>)
    requires n <= MaxScale
    ensures |ls| == n && forall i :: 0 <= i < n ==> ls[i] == Letter(i)
  {
    seq(n, i requires 0 <= i < n => Letter(i))
  }

  /** The numbers 1..n in order. */
  function Numbers(n: nat): (s: seq<int>)
    ensures |s| == n && forall i :: 0 <= i < n ==> s[i] == i + 1
  {
    seq(n, i requires 0 <= i < n => i + 1)
  }

  lemma LettersDistinct(i: nat, j: nat)
    requires i < MaxScale && j < MaxScale && i != j
    ensures Letter(i) != Letter(j)
  {
    assert Letter(i)[0] != Letter(j)[0];
  }

  // ---------------------------------------------------------------------
  // The descending Fisher–Yates pass

  /** `[s[i], s[j]] = [s[j], s[i]]`. */
  function Swapped<T>(s: seq<T>, i: nat, j: nat): (r: seq<T>)
    requires i < |s| && j < |s|
    ensures |r| == |s| && r[i] == s[j] && r[j] == s[i]
    ensures forall k :: 0 <= k < |s| && k != i && k != j ==> r[k] == s[k]
  {
    s[i := s[j]][j := s[i]]
  }

  /** `[array[i], array[j]] = [array[j], array[i]]`. */
  method SwapIn<T>(a: array<T>, i: nat, j: nat)
    requires i < a.Length && j < a.Length
    modifies a
    ensures a[..] == Swapped(old(a[..]), i, j)
  {
    a[i], a[j] := a[j], a[i];
  }

  /** A choice of swap partner for each position: position k swaps with pick[k], at most k. */
  predicate ValidPicks(pick: seq<nat>, n: nat)
  {
    |pick| == n && forall k :: 0 <= k < n ==> pick[k] <= k
  }

  /** `for (let i = top; i > 0; i--)` swapping position i with pick[i]. */
  function FisherYates<T>(s: seq<T>, top: nat, pick: seq<nat>): seq<T>
    requires ValidPicks(pick, |s|) && (top < |s| || top == 0)
    decreases top
  {
    if top == 0 then s else FisherYates(Swapped(s, top, pick[top]), top - 1, pick)
  }

  /** One iteration of the loop: swapping at `top` leaves the rest of the pass to do. */
  lemma FisherYatesStep<T>(before: seq<T>, after: seq<T>, top: nat, pick: seq<nat>)
    requires ValidPicks(pick, |before|) && 0 < top < |before|
    requires after == Swapped(before, top, pick[top])
    ensures FisherYates(before, top, pick) == FisherYates(after, top - 1, pick)
  {
  }

  /** The first index of the loop: `length - 1`, or no iteration at all for length 0 or 1. */
  function Top(n: nat): nat
  {
    if n == 0 then 0 else n - 1
  }

  lemma SwappedPermutes<T>(s: seq<T>, i: nat, j: nat)
    requires i < |s| && j < |s|
    ensures multiset(Swapped(s, i, j)) == multiset(s)
  {
    var t := s[i := s[j]];
    assert multiset(t) == multiset(s) - multiset{s[i]} + multiset{s[j]};
    assert multiset(t[j := s[i]]) == multiset(t) - multiset{t[j]} + multiset{s[i]};
  }

  /** The pass only swaps: its result is a permutation of its input. */
  lemma {:induction false} FisherYatesPermutes<T>(s: seq<T>, top: nat, pick: seq<nat>)
    requires ValidPicks(pick, |s|) && (top < |s| || top == 0)
    ensures |FisherYates(s, top, pick)| == |s|
    ensures multiset(FisherYates(s, top, pick)) == multiset(s)
    decreases top
  {
    if top > 0 {
      SwappedPermutes(s, top, pick[top]);
      FisherYatesPermutes(Swapped(s, top, pick[top]), top - 1, pick);
    }
  }

  /** Swapping keeps the elements pairwise distinct. */
  lemma {:induction false} FisherYatesDistinct<T>(s: seq<T>, top: nat, pick: seq<nat>)
    requires ValidPicks(pick, |s|) && (top < |s| || top == 0)
    requires forall a, b :: 0 <= a < b < |s| ==> s[a] != s[b]
    ensures |FisherYates(s, top, pick)| == |s|
    ensures var r := FisherYates(s, top, pick); forall a, b :: 0 <= a < b < |r| ==> r[a] != r[b]
    decreases top
  {
    FisherYatesPermutes(s, top, pick);
    if top > 0 {
      var t := Swapped(s, top, pick[top]);
      forall a, b | 0 <= a < b < |t| ensures t[a] != t[b] {
        var a' := if a == top then pick[top] else if a == pick[top] then top else a;
        var b' := if b == top then pick[top] else if b == pick[top] then top else b;
        assert t[a] == s[a'] && t[b] == s[b'];
        if a' < b' {
        } else {
          assert b' < a';
        }
      }
      FisherYatesDistinct(t, top - 1, pick);
    }
  }

  // ---------------------------------------------------------------------
  // Swap indices

  /** `x | 0` on an integer: its low 32 bits. */
  function Bits(x: int): bv32
  {
    (x % 0x1_0000_0000) as bv32
  }

  /** The 32 bits read as a signed integer, as the result of `^` is. */
  function Signed(b: bv32): (x: int)
    ensures -0x8000_0000 <= x < 0x8000_0000
  {
    if b as int >= 0x8000_0000 then b as int - 0x1_0000_0000 else b as int
  }

  /** JavaScript's `%`, whose remainder takes the sign of the dividend. */
  function TruncRem(x: int, m: int): (r: int)
    requires m > 0
    ensures -m < r < m
    ensures x >= 0 ==> r == x % m
  {
    if x >= 0 then x % m else -((-x) % m)
  }

  function Abs(x: int): nat
  {
    if x < 0 then -x else x
  }

  /** `Math.abs(((seed * 2654435761) ^ (i * 2246822519)) % (i + 1))`: always in 0..i. */
  function SeededSwapIndex(seed: int, i: nat): (j: nat)
    ensures j <= i
  {
    Abs(TruncRem(Signed(Bits(seed * 2654435761) ^ Bits(i * 2246822519)), i + 1))
  }

  /** `Math.floor(r * (i + 1))` for a draw r in [0, 1): always in 0..i. */
  function RandomSwapIndex(r: real, i: nat): (j: nat)
    requires 0.0 <= r < 1.0
    ensures j <= i
  {
    var m := (i + 1) as real;
    var x := r * m;
    ScaleBelow(r, m, x);
    x.Floor
  }

  lemma ScaleBelow(r: real, m: real, x: real)
    requires 0.0 <= r < 1.0 && m > 0.0 && x == r * m
    ensures 0.0 <= x && x < m
  {
    assert m - x == (1.0 - r) * m;
  }

  /** Draws of `Math.random`, one per position (the one at position 0 is never used). */
  predicate ValidDraws(randoms: seq<real>, n: nat)
  {
    |randoms| == n && forall k :: 0 <= k < n ==> 0.0 <= randoms[k] < 1.0
  }

  /** The swap partner of position k: from the seed when there is one, otherwise from the draws. */
  function LabelPick(n: nat, seed: Option<int>, randoms: seq<real>, k: nat): (j: nat)
    requires ValidDraws(randoms, n) && k < n
    ensures j <= k
  {
    match seed
    case Some(sd) => SeededSwapIndex(sd, k)
    case None => RandomSwapIndex(randoms[k], k)
  }

  function LabelPicks(n: nat, seed: Option<int>, randoms: seq<real>): (pick: seq<nat>)
    requires ValidDraws(randoms, n)
    ensures ValidPicks(pick, n)
  {
    seq(n, k requires 0 <= k < n => LabelPick(n, seed, randoms, k))
  }

  // ---------------------------------------------------------------------
  // generateLabelMapping

  /** The scores handed out to the letters: 1..n after the pass. */
  function ShuffledScores(n: nat, seed: Option<int>, randoms: seq<real>): seq<int>
    requires ValidDraws(randoms, n)
  {
    FisherYates(Numbers(n), Top(n), LabelPicks(n, seed, randoms))
  }

  /** `mapping[letters[i]] = shuffled[i]` for each letter in order. */
  function LabelMappingOf(n: nat, seed: Option<int>, randoms: seq<real>): Entries
    requires n <= MaxScale && ValidDraws(randoms, n)
  {
    var shuffled := ShuffledScores(n, seed, randoms);
    FisherYatesPermutes(Numbers(n), Top(n), LabelPicks(n, seed, randoms));
    seq(n, i requires 0 <= i < n => (Letter(i), shuffled[i]))
  }

  /** The first loop of generateLabelMapping: `shuffled` starts as 1..n and is shuffled in place. */
  method ShuffleScores(scaleSize: nat, seed: Option<int>, randoms: seq<real>) returns (shuffled: array<int>)
    requires ValidDraws(randoms, scaleSize)
    ensures fresh(shuffled) && shuffled.Length == scaleSize
    ensures shuffled[..] == ShuffledScores(scaleSize, seed, randoms)
  {
    ghost var pick := LabelPicks(scaleSize, seed, randoms);
    ghost var target := ShuffledScores(scaleSize, seed, randoms);
    shuffled := new int[scaleSize](i requires 0 <= i < scaleSize => i + 1);
    assert shuffled[..] == Numbers(scaleSize);
    var i: int := scaleSize - 1;
    while i > 0
      invariant 0 <= i + 1 <= scaleSize || (scaleSize == 0 && i == -1)
      invariant i >= 0 ==> FisherYates(shuffled[..], i, pick) == target
      invariant i < 0 ==> shuffled[..] == target
      decreases i
    {
      var j := LabelPick(scaleSize, seed, randoms, i);
      ghost var before := shuffled[..];
      SwapIn(shuffled, i, j);
      FisherYatesStep(before, shuffled[..], i, pick);
      i := i - 1;
    }
  }

  method GenerateLabelMapping(scaleSize: nat, seed: Option<int>, randoms: seq<real>) returns (mapping: Entries)
    requires scaleSize <= MaxScale && ValidDraws(randoms, scaleSize)
    ensures mapping == LabelMappingOf(scaleSize, seed, randoms)
  {
    var shuffled := ShuffleScores(scaleSize, seed, randoms);
    mapping := [];
    var k := 0;
    while k < scaleSize
      invariant 0 <= k <= scaleSize
      invariant shuffled[..] == ShuffledScores(scaleSize, seed, randoms)
      invariant mapping == LabelMappingOf(scaleSize, seed, randoms)[..k]
    {
      mapping := mapping + [(Letter(k), shuffled[k])];
      k := k + 1;
    }
  }

  /** The keys are exactly the first n letters, in order, each once. */
  lemma LabelMappingKeys(n: nat, seed: Option<int>, randoms: seq<real>)
    requires n <= MaxScale && ValidDraws(randoms, n)
    ensures var m := LabelMappingOf(n, seed, randoms);
      |m| == n && forall i :: 0 <= i < n ==> m[i].0 == Letter(i)
    ensures var m := LabelMappingOf(n, seed, randoms);
      forall i, j :: 0 <= i < j < n ==> m[i].0 != m[j].0
  {
    var m := LabelMappingOf(n, seed, randoms);
    forall i, j | 0 <= i < j < n ensures m[i].0 != m[j].0 {
      LettersDistinct(i, j);
    }
  }

  /** The scores of a mapping, in entry order. */
  function Scores(m: Entries): (vs: seq<int>)
    ensures |vs| == |m| && forall i :: 0 <= i < |m| ==> vs[i] == m[i].1
  {
    seq(|m|, i requires 0 <= i < |m| => m[i].1)
  }

  lemma ScoresOfMapping(n: nat, seed: Option<int>, randoms: seq<real>)
    requires n <= MaxScale && ValidDraws(randoms, n)
    ensures Scores(LabelMappingOf(n, seed, randoms)) == ShuffledScores(n, seed, randoms)
  {
    FisherYatesPermutes(Numbers(n), Top(n), LabelPicks(n, seed, randoms));
  }

  /**
   * The scores form a permutation of 1..n: every score is in range, no two
   * letters share one, and every number in 1..n is some letter's score.
   */
  lemma LabelMappingPermutation(n: nat, seed: Option<int>, randoms: seq<real>)
    requires n <= MaxScale && ValidDraws(randoms, n)
    ensures var vs := Scores(LabelMappingOf(n, seed, randoms));
      |vs| == n && multiset(vs) == multiset(Numbers(n))
    ensures var vs := Scores(LabelMappingOf(n, seed, randoms));
      forall i :: 0 <= i < |vs| ==> 1 <= vs[i] <= n
    ensures var vs := Scores(LabelMappingOf(n, seed, randoms));
      forall i, j :: 0 <= i < j < |vs| ==> vs[i] != vs[j]
    ensures var vs := Scores(LabelMappingOf(n, seed, randoms));
      forall v :: 1 <= v <= n ==> v in vs
  {
    var pick := LabelPicks(n, seed, randoms);
    var sh := ShuffledScores(n, seed, randoms);
    ScoresOfMapping(n, seed, randoms);
    FisherYatesPermutes(Numbers(n), Top(n), pick);
    FisherYatesDistinct(Numbers(n), Top(n), pick);
    forall i | 0 <= i < |sh| ensures 1 <= sh[i] <= n {
      assert sh[i] in multiset(Numbers(n));
    }
    forall v | 1 <= v <= n ensures v in sh {
      assert Numbers(n)[v - 1] == v;
      assert v in multiset(Numbers(n));
    }
  }

  /** With a seed the draws play no part: the mapping is a function of the scale size and the seed. */
  lemma SeededMappingDeterministic(n: nat, seed: int, randoms1: seq<real>, randoms2: seq<real>)
    requires n <= MaxScale && ValidDraws(randoms1, n) && ValidDraws(randoms2, n)
    ensures LabelMappingOf(n, Some(seed), randoms1) == LabelMappingOf(n, Some(seed), randoms2)
  {
    assert LabelPicks(n, Some(seed), randoms1) == LabelPicks(n, Some(seed), randoms2);
  }

  /** A one-stage scale is `{ A: 1 }`: the loop does not run. */
  lemma SingleStageMapping(seed: Option<int>, randoms: seq<real>)
    requires ValidDraws(randoms, 1)
    ensures LabelMappingOf(1, seed, randoms) == [("A", 1)]
  {
    assert Numbers(1) == [1];
    assert Letter(0) == "A";
  }
}
