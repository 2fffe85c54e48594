/**
 * The label plumbing of the scoring prompt
 * (`domain/experiments/stages/scoring/experiments_scoring_prompts.ts`):
 * the mulberry32 generator, the seeded shuffle of the rubric stages, the
 * inversion of a sample's label mapping, and how each stage's token and
 * rubric line are chosen.  The strategies the prompt builder resolves are
 * taken as their resolved values.
 */
module ScoringPrompts {
  import opened Wrappers
  import opened JsStrings
  import opened LabelRandomization
  import opened RubricParsers

  // ---------------------------------------------------------------------
  // mulberry32

  /** The increment added to the state before each draw. */
  const Golden: bv32 := 0x6D2B79F5

  /** The output mix of a state that has just been advanced. */
  function Mix(s: bv32): bv32
  {
    var t := (s ^ (s >> 15)) * (1 | s);
    var t2 := (t + (t ^ (t >> 7)) * (61 | t)) ^ t;
    t2 ^ (t2 >> 14)
  }

  /** `((t ^ (t >>> 14)) >>> 0) / 4294967296`: the mix scaled into [0, 1). */
  function MulberryValue(s: bv32): (r: real)
    ensures 0.0 <= r < 1.0
  {
    (Mix(s) as int) as real / 4294967296.0
  }

  /** The state after k draws from `mulberry32(seed)`. */
  function MulberryState(seed: int, k: nat): bv32
  {
    if k == 0 then Bits(seed) else MulberryState(seed, k - 1) + Golden
  }

  /** The closure returned by `mulberry32(seed)`, with its captured state `s`. */
  class Mulberry32 {
    var s: bv32
    ghost var draws: nat
    ghost const seed: int

    ghost predicate Valid()
      reads this
    {
      s == MulberryState(seed, draws)
    }

    /** `let s = seed | 0`. */
    constructor(seed: int)
      ensures this.seed == seed && draws == 0 && Valid()
    {
      this.seed := seed;
      s := Bits(seed);
      draws := 0;
    }

    /** One call of the closure: advance the state, then mix it. */
    method Next() returns (r: real)
      requires Valid()
      modifies this
      ensures Valid() && draws == old(draws) + 1
      ensures r == MulberryValue(MulberryState(seed, draws))
      ensures 0.0 <= r < 1.0
    {
      s := s + Golden;
      draws := draws + 1;
      r := MulberryValue(s);
    }
  }

  // ---------------------------------------------------------------------
  // shuffleWithSeed

  /**
   * The swap partner of each position: position i is handled by the
   * (n - i)-th call of the generator, which is `mulberry32(seed)` when a
   * seed is given and `Math.random` (the draws) otherwise.
   */
  function ShufflePicks(n: nat, seed: Option<int>, randoms: seq<real>): (pick: seq<nat>)
    requires ValidDraws(randoms, n)
    ensures ValidPicks(pick, n)
  {
    seq(n, i requires 0 <= i < n => RandomSwapIndex(ShuffleDraw(n, seed, randoms, i), i))
  }

  /** The value `rng()` returns at position i. */
  function ShuffleDraw(n: nat, seed: Option<int>, randoms: seq<real>, i: nat): (r: real)
    requires ValidDraws(randoms, n) && i < n
    ensures 0.0 <= r < 1.0
  {
    match seed
    case Some(sd) => MulberryValue(MulberryState(sd, n - i))
    case None => randoms[i]
  }

  function ShuffleOf<T>(items: seq<T>, seed: Option<int>, randoms: seq<real>): seq<T>
    requires ValidDraws(randoms, |items|)
  {
    FisherYates(items, Top(|items|), ShufflePicks(|items|, seed, randoms))
  }

  /** `rng()` at position i: the next mulberry32 draw when there is a generator, otherwise `Math.random`. */
  method Draw(rng: Mulberry32?, seed: Option<int>, randoms: seq<real>, n: nat, i: nat) returns (r: real)
    requires ValidDraws(randoms, n) && 0 < i < n
    requires seed.Some? <==> rng != null
    requires rng != null ==> rng.Valid() && rng.seed == seed.value && rng.draws == n - 1 - i
    modifies rng
    ensures rng != null ==> rng.Valid() && rng.draws == n - i
    ensures r == ShuffleDraw(n, seed, randoms, i)
  {
    if rng != null {
      r := rng.Next();
    } else {
      r := randoms[i];
    }
  }

  /** `Math.floor(rng() * (i + 1))`: the swap partner of position i. */
  method DrawPick(rng: Mulberry32?, seed: Option<int>, randoms: seq<real>, n: nat, i: nat) returns (j: nat)
    requires ValidDraws(randoms, n) && 0 < i < n
    requires seed.Some? <==> rng != null
    requires rng != null ==> rng.Valid() && rng.seed == seed.value && rng.draws == n - 1 - i
    modifies rng
    ensures rng != null ==> rng.Valid() && rng.draws == n - i
    ensures j == ShufflePicks(n, seed, randoms)[i] && j <= i
  {
    var r := Draw(rng, seed, randoms, n, i);
    j := RandomSwapIndex(r, i);
  }

  /** One iteration of the loop: draw the partner of position i and swap the two. */
  method ShuffleStep<T>(copy: array<T>, rng: Mulberry32?, seed: Option<int>, randoms: seq<real>, i: nat)
    requires ValidDraws(randoms, copy.Length) && 0 < i < copy.Length
    requires seed.Some? <==> rng != null
    requires rng != null ==> rng.Valid() && rng.seed == seed.value && rng.draws == copy.Length - 1 - i
    modifies copy, rng
    ensures rng != null ==> rng.Valid() && rng.draws == copy.Length - i
    ensures var pick := ShufflePicks(copy.Length, seed, randoms);
      FisherYates(copy[..], i - 1, pick) == FisherYates(old(copy[..]), i, pick)
  {
    ghost var pick := ShufflePicks(copy.Length, seed, randoms);
    var j := DrawPick(rng, seed, randoms, copy.Length, i);
    ghost var before := copy[..];
    SwapIn(copy, i, j);
    FisherYatesStep(before, copy[..], i, pick);
  }

  /** The `for` loop of shuffleWithSeed over the copy, drawing from `rng` (or `Math.random` when there is none). */
  method ShuffleInPlace<T>(copy: array<T>, rng: Mulberry32?, seed: Option<int>, randoms: seq<real>)
    requires ValidDraws(randoms, copy.Length)
    requires seed.Some? <==> rng != null
    requires rng != null ==> rng.Valid() && rng.seed == seed.value && rng.draws == 0
    modifies copy, rng
    ensures copy[..] == FisherYates(old(copy[..]), Top(copy.Length), ShufflePicks(copy.Length, seed, randoms))
  {
    var n := copy.Length;
    if n == 0 {
      return;
    }
    ghost var pick := ShufflePicks(n, seed, randoms);
    ghost var target := FisherYates(copy[..], n - 1, pick);
    var i: nat := n - 1;
    while i > 0
      invariant i < n
      invariant FisherYates(copy[..], i, pick) == target
      invariant rng != null ==> rng.Valid()
      invariant rng != null ==> rng.seed == seed.value && rng.draws == n - 1 - i
    {
      i := i - 1;
      ShuffleStep(copy, rng, seed, randoms, i + 1);
    }
  }

  /** A shuffled copy of the items; the items themselves are a value and stay as they are. */
  method ShuffleWithSeed<T>(items: seq<T>, seed: Option<int>, randoms: seq<real>) returns (shuffled: seq<T>)
    requires ValidDraws(randoms, |items|)
    ensures shuffled == ShuffleOf(items, seed, randoms)
  {
    var rng: Mulberry32? := null;
    if seed.Some? {
      rng := new Mulberry32(seed.value);
    }
    var copy := new T[|items|](k requires 0 <= k < |items| => items[k]);
    assert copy[..] == items;
    ShuffleInPlace(copy, rng, seed, randoms);
    shuffled := copy[..];
  }

  /** The shuffle is a permutation of its input. */
  lemma ShufflePermutes<T>(items: seq<T>, seed: Option<int>, randoms: seq<real>)
    requires ValidDraws(randoms, |items|)
    ensures |ShuffleOf(items, seed, randoms)| == |items|
    ensures multiset(ShuffleOf(items, seed, randoms)) == multiset(items)
  {
    FisherYatesPermutes(items, Top(|items|), ShufflePicks(|items|, seed, randoms));
  }

  /** With a seed the order is reproducible: the same for every run of `Math.random`. */
  lemma SeededShuffleDeterministic<T>(items: seq<T>, seed: int, randoms1: seq<real>, randoms2: seq<real>)
    requires ValidDraws(randoms1, |items|) && ValidDraws(randoms2, |items|)
    ensures ShuffleOf(items, Some(seed), randoms1) == ShuffleOf(items, Some(seed), randoms2)
  {
    assert ShufflePicks(|items|, Some(seed), randoms1) == ShufflePicks(|items|, Some(seed), randoms2);
  }

  // ---------------------------------------------------------------------
  // invertLabelMapping

  function MaxOf(vs: seq<int>): (m: int)
    requires |vs| > 0
    ensures forall k :: 0 <= k < |vs| ==> vs[k] <= m
    ensures m in vs
  {
    if |vs| == 1 then vs[0]
    else
      var rest := MaxOf(vs[1..]);
      if vs[0] >= rest then vs[0] else rest
  }

  /** The token of the last entry with this stage: the one whose assignment is left standing. */
  function LastTokenFor(entries: Entries, stage: int): (t: Option<string>)
    ensures t.Some? ==> exists k :: 0 <= k < |entries| && entries[k] == (t.value, stage)
  {
    if |entries| == 0 then None
    else if entries[|entries| - 1].1 == stage then Some(entries[|entries| - 1].0)
    else LastTokenFor(entries[..|entries| - 1], stage)
  }

  /**
   * `new Array(Math.max(...values))` filled by `tokens[stage - 1] = token`:
   * the slots of a length-max array, with unassigned slots as holes
   * (`None`).  `Math.max()` of no values is `-Infinity`, and an array
   * length outside 0..2^32-1 throws a `RangeError`.
   */
  function InvertedByMax(entries: Entries): (r: Result<seq<Option<string>>>)
    ensures r.Success? ==> |entries| > 0 && |r.value| == MaxOf(Scores(entries))
  {
    if |entries| == 0 then Failure("Invalid array length")
    else
      var mx := MaxOf(Scores(entries));
      if mx < 0 || mx > 0xFFFF_FFFF then Failure("Invalid array length")
      else Success(seq(mx, k requires 0 <= k < mx => LastTokenFor(entries, k + 1)))
  }

  method InvertLabelMapping(entries: Entries) returns (r: Result<seq<Option<string>>>)
    ensures r == InvertedByMax(entries)
  {
    if |entries| == 0 {
      return Failure("Invalid array length");
    }
    var mx := MaxOf(Scores(entries));
    if mx < 0 || mx > 0xFFFF_FFFF {
      return Failure("Invalid array length");
    }
    var tokens := new Option<string>[mx](_ => None);
    PlaceTokens(entries, tokens);
    assert tokens[..] == seq(mx, k requires 0 <= k < mx => LastTokenFor(entries, k + 1));
    return Success(tokens[..]);
  }

  /** The `for (const [token, stage] of entries)` loop over the fresh array of holes. */
  method PlaceTokens(entries: Entries, tokens: array<Option<string>>)
    requires forall k :: 0 <= k < tokens.Length ==> tokens[k] == None
    modifies tokens
    ensures forall k :: 0 <= k < tokens.Length ==> tokens[k] == LastTokenFor(entries, k + 1)
  {
    var i := 0;
    while i < |entries|
      invariant 0 <= i <= |entries|
      invariant forall k :: 0 <= k < tokens.Length ==> tokens[k] == LastTokenFor(entries[..i], k + 1)
    {
      var (token, stage) := entries[i];
      // A stage below 1 names no array slot: the assignment sets an ordinary property.
      if 1 <= stage <= tokens.Length {
        tokens[stage - 1] := Some(token);
      }
      LastTokenForSnoc(entries, i);
      i := i + 1;
    }
    assert entries[..|entries|] == entries;
  }

  lemma LastTokenForSnoc(entries: Entries, i: nat)
    requires i < |entries|
    ensures forall stage ::
      LastTokenFor(entries[..i + 1], stage) == (if entries[i].1 == stage then Some(entries[i].0) else LastTokenFor(entries[..i], stage))
  {
    var prefix := entries[..i + 1];
    assert prefix[..i] == entries[..i] && prefix[i] == entries[i];
    forall stage ensures LastTokenFor(prefix, stage) == (if entries[i].1 == stage then Some(entries[i].0) else LastTokenFor(entries[..i], stage)) {
    }
  }

  /** Each token lands at index stage - 1, the last entry for a stage winning. */
  lemma InvertedPlacesTokens(entries: Entries, i: nat)
    requires i < |entries| && 1 <= entries[i].1 && InvertedByMax(entries).Success?
    requires forall k :: i < k < |entries| ==> entries[k].1 != entries[i].1
    ensures entries[i].1 - 1 < |InvertedByMax(entries).value|
    ensures InvertedByMax(entries).value[entries[i].1 - 1] == Some(entries[i].0)
  {
    assert entries[i].1 in Scores(entries) by {
      assert Scores(entries)[i] == entries[i].1;
    }
    LastTokenForLast(entries, i);
  }

  lemma {:induction false} LastTokenForLast(entries: Entries, i: nat)
    requires i < |entries|
    requires forall k :: i < k < |entries| ==> entries[k].1 != entries[i].1
    ensures LastTokenFor(entries, entries[i].1) == Some(entries[i].0)
    decreases |entries|
  {
    if i < |entries| - 1 {
      var init := entries[..|entries| - 1];
      assert init[i] == entries[i];
      LastTokenForLast(init, i);
    }
  }

  /** A stage gets no token exactly when no entry carries that stage. */
  lemma {:induction false} LastTokenForNone(entries: Entries, stage: int)
    ensures LastTokenFor(entries, stage).None? <==> forall k :: 0 <= k < |entries| ==> entries[k].1 != stage
    decreases |entries|
  {
    if |entries| > 0 && entries[|entries| - 1].1 != stage {
      var init := entries[..|entries| - 1];
      LastTokenForNone(init, stage);
      assert forall k :: 0 <= k < |init| ==> init[k] == entries[k];
    }
  }

  /**
   * A mapping that gives n labels the scores 1..n, one each, inverts with
   * no holes to an array of length n holding each label at its score less one.
   */
  lemma InvertBijective(m: Entries, n: nat)
    requires 1 <= n <= 0xFFFF_FFFF && |m| == n
    requires forall i :: 0 <= i < n ==> 1 <= m[i].1 <= n
    requires forall i, j :: 0 <= i < j < n ==> m[i].1 != m[j].1
    requires forall v :: 1 <= v <= n ==> v in Scores(m)
    ensures InvertedByMax(m).Success? && |InvertedByMax(m).value| == n
    ensures forall i :: 0 <= i < n ==> InvertedByMax(m).value[m[i].1 - 1] == Some(m[i].0)
    ensures forall k :: 0 <= k < n ==> InvertedByMax(m).value[k].Some?
  {
    var vs := Scores(m);
    assert MaxOf(vs) == n by {
      assert n in vs;
      assert MaxOf(vs) in vs;
    }
    forall i | 0 <= i < n ensures InvertedByMax(m).value[m[i].1 - 1] == Some(m[i].0) {
      InvertedPlacesTokens(m, i);
    }
    forall k | 0 <= k < n ensures InvertedByMax(m).value[k].Some? {
      assert k + 1 in vs;
      var i :| 0 <= i < n && vs[i] == k + 1;
      assert m[i].1 - 1 == k;
    }
  }

  /**
   * Inverting a generated mapping gives back every letter, at the index of
   * its score less one, with no holes: inversion undoes generation.
   */
  lemma InvertGenerated(n: nat, seed: Option<int>, randoms: seq<real>)
    requires 1 <= n <= MaxScale && ValidDraws(randoms, n)
    ensures var m := LabelMappingOf(n, seed, randoms);
      |m| == n && forall i :: 0 <= i < n ==> 1 <= m[i].1 <= n
    ensures var m := LabelMappingOf(n, seed, randoms);
      InvertedByMax(m).Success? && |InvertedByMax(m).value| == n &&
      (forall i :: 0 <= i < n ==> InvertedByMax(m).value[m[i].1 - 1] == Some(Letter(i))) &&
      (forall k :: 0 <= k < n ==> InvertedByMax(m).value[k].Some?)
  {
    var m := LabelMappingOf(n, seed, randoms);
    LabelMappingKeys(n, seed, randoms);
    LabelMappingPermutation(n, seed, randoms);
    var vs := Scores(m);
    forall i | 0 <= i < n ensures 1 <= m[i].1 <= n {
      assert vs[i] == m[i].1;
    }
    forall i, j | 0 <= i < j < n ensures m[i].1 != m[j].1 {
      assert vs[i] == m[i].1 && vs[j] == m[j].1;
    }
    InvertBijective(m, n);
  }

  // ---------------------------------------------------------------------
  // Stage tokens and rubric lines in buildScoreGenPrompt

  /**
   * The prompt's label tokens: the inverted sample mapping when labels are
   * anonymised and the sample has a mapping, otherwise the scale's letters.
   */
  function LabelTokens(anonLabel: bool, labelMapping: Option<Entries>, letterLabels: seq<string>): Result<seq<Option<string>>>
  {
    if anonLabel && labelMapping.Some? then InvertedByMax(labelMapping.value)
    else Success(seq(|letterLabels|, k requires 0 <= k < |letterLabels| => Some(letterLabels[k])))
  }

  /** `labelTokens[idx] ?? scale.letterLabels[idx]`, printed as "undefined" when both are missing. */
  function StageToken(labelTokens: seq<Option<string>>, letterLabels: seq<string>, idx: nat): string
  {
    if idx < |labelTokens| && labelTokens[idx].Some? then labelTokens[idx].value
    else if idx < |letterLabels| then letterLabels[idx]
    else "undefined"
  }

  /** Without anonymisation, or without a mapping, every stage is shown under its letter. */
  lemma StageTokenLetters(anonLabel: bool, labelMapping: Option<Entries>, letterLabels: seq<string>, idx: nat)
    requires !anonLabel || labelMapping.None?
    requires idx < |letterLabels|
    ensures LabelTokens(anonLabel, labelMapping, letterLabels).Success?
    ensures StageToken(LabelTokens(anonLabel, labelMapping, letterLabels).value, letterLabels, idx) == letterLabels[idx]
  {
  }

  /** With anonymisation and a mapping, a stage shows its inverted token, or its letter where the inversion has a hole. */
  lemma StageTokenAnonymised(labelMapping: Entries, letterLabels: seq<string>, idx: nat)
    requires InvertedByMax(labelMapping).Success?
    ensures var tokens := LabelTokens(true, Some(labelMapping), letterLabels).value;
      tokens == InvertedByMax(labelMapping).value &&
      (idx < |tokens| && tokens[idx].Some? ==> StageToken(tokens, letterLabels, idx) == tokens[idx].value) &&
      (!(idx < |tokens| && tokens[idx].Some?) && idx < |letterLabels| ==> StageToken(tokens, letterLabels, idx) == letterLabels[idx])
  {
  }

  /** A stage paired with the token it is shown under. */
  datatype StagedLine = StagedLine(stage: Stage, token: string)

  /** `rubric.stages.map((stage, idx) => ({ stage, token: ... }))`. */
  function StagedOf(stages: seq<Stage>, labelTokens: seq<Option<string>>, letterLabels: seq<string>): (r: seq<StagedLine>)
    ensures |r| == |stages|
    ensures forall k :: 0 <= k < |stages| ==> r[k].stage == stages[k] && r[k].token == StageToken(labelTokens, letterLabels, k)
  {
    seq(|stages|, k requires 0 <= k < |stages| => StagedLine(stages[k], StageToken(labelTokens, letterLabels, k)))
  }

  /**
   * One line of the `RUBRIC STAGES:` block.  The label is followed by a
   * dash: an em dash "—" in this builder, a hyphen "-" in `run_prompts.ts`.
   */
  function RubricLine(st: StagedLine, hideLabelName: bool, dash: string): string
  {
    var criteria := Join(st.stage.criteria, "; ");
    if hideLabelName then st.token + ": Criteria: " + criteria
    else st.token + ": \"" + st.stage.stageLabel + "\" " + dash + " Criteria: " + criteria
  }

  /** The dash this builder prints after a stage label. */
  const EmDash := "—"

  /** The stages in display order: shuffled with the sample's display seed when the rubric order is randomised. */
  function DisplayOrder(staged: seq<StagedLine>, rubricOrderShuffle: bool, displaySeed: Option<int>, randoms: seq<real>): seq<StagedLine>
    requires ValidDraws(randoms, |staged|)
  {
    if rubricOrderShuffle then ShuffleOf(staged, displaySeed, randoms) else staged
  }

  function RubricLines(staged: seq<StagedLine>, hideLabelName: bool, dash: string): (lines: seq<string>)
    ensures |lines| == |staged|
  {
    seq(|staged|, k requires 0 <= k < |staged| => RubricLine(staged[k], hideLabelName, dash))
  }

  /**
   * With label text hidden, a line is the token and the criteria only: two
   * stages that differ in their label alone give the same line.
   */
  lemma HiddenLabelNotShown(token: string, label1: string, label2: string, criteria: seq<string>, dash: string)
    ensures RubricLine(StagedLine(Stage(label1, criteria), token), true, dash) ==
      RubricLine(StagedLine(Stage(label2, criteria), token), true, dash)
    ensures RubricLine(StagedLine(Stage(label1, criteria), token), true, dash) ==
      token + ": Criteria: " + Join(criteria, "; ")
  {
  }

  /** The pass moves lines with their stages: rendering commutes with it. */
  lemma {:induction false} FisherYatesLines(staged: seq<StagedLine>, hideLabelName: bool, dash: string, top: nat, pick: seq<nat>)
    requires ValidPicks(pick, |staged|) && (top < |staged| || top == 0)
    ensures |FisherYates(staged, top, pick)| == |staged|
    ensures FisherYates(RubricLines(staged, hideLabelName, dash), top, pick) == RubricLines(FisherYates(staged, top, pick), hideLabelName, dash)
    decreases top
  {
    FisherYatesPermutes(staged, top, pick);
    if top > 0 {
      var t := Swapped(staged, top, pick[top]);
      assert Swapped(RubricLines(staged, hideLabelName, dash), top, pick[top]) == RubricLines(t, hideLabelName, dash);
      FisherYatesLines(t, hideLabelName, dash, top - 1, pick);
    }
  }

  /**
   * The block lists every stage's line once: unshuffled it is in stage
   * order, and shuffled it is a permutation of that.
   */
  lemma RubricLinesDisplayed(staged: seq<StagedLine>, rubricOrderShuffle: bool, hideLabelName: bool, dash: string, displaySeed: Option<int>, randoms: seq<real>)
    requires ValidDraws(randoms, |staged|)
    ensures var lines := RubricLines(DisplayOrder(staged, rubricOrderShuffle, displaySeed, randoms), hideLabelName, dash);
      multiset(lines) == multiset(RubricLines(staged, hideLabelName, dash))
    ensures !rubricOrderShuffle ==>
      RubricLines(DisplayOrder(staged, rubricOrderShuffle, displaySeed, randoms), hideLabelName, dash) == RubricLines(staged, hideLabelName, dash)
  {
    if rubricOrderShuffle {
      var pick := ShufflePicks(|staged|, displaySeed, randoms);
      FisherYatesLines(staged, hideLabelName, dash, Top(|staged|), pick);
      FisherYatesPermutes(RubricLines(staged, hideLabelName, dash), Top(|staged|), pick);
    }
  }

  // ---------------------------------------------------------------------
  // buildScoreCriticPrompt

  /** `${idx + 1}) ${label} :: ${criteria.join("; ")}`. */
  function CriticRubricLine(idx: nat, st: Stage): string
  {
    NatToString(idx + 1) + ") " + st.stageLabel + " :: " + Join(st.criteria, "; ")
  }

  /** `args.verdict ?? "(none)"`. */
  function VerdictText(verdict: Option<string>): (t: string)
    ensures verdict.None? ==> t == "(none)"
    ensures verdict.Some? ==> t == verdict.value
  {
    match verdict
    case None => "(none)"
    case Some(v) => v
  }

  /** Every line of the critic prompt before the verdict line. */
  function CriticPromptHead(evidence: string, rubric: seq<Stage>): (lines: seq<string>)
    ensures |lines| == 10
  {
    var block := Join(seq(|rubric|, k requires 0 <= k < |rubric| => CriticRubricLine(k, rubric[k])), "\n");
    [ "Estimate the probability that an expert panel would agree with the model verdict.",
      "Provide reasoning, then the final line:",
      "EXPERT_AGREEMENT: <0-1>",
      "",
      "EVIDENCE:",
      evidence,
      "",
      "RUBRIC:",
      block,
      "" ]
  }

  /** The critic's user prompt: its lines joined by newlines. */
  function ScoreCriticUserPrompt(evidence: string, rubric: seq<Stage>, verdict: Option<string>): string
  {
    Join(CriticPromptHead(evidence, rubric) + ["MODEL_VERDICT: " + VerdictText(verdict)], "\n")
  }

  lemma {:induction false} JoinSnoc(ts: seq<string>, t: string, sep: string)
    requires |ts| > 0
    ensures Join(ts + [t], sep) == Join(ts, sep) + sep + t
    decreases |ts|
  {
    if |ts| == 1 {
      assert (ts + [t])[1..] == [t];
    } else {
      assert (ts + [t])[1..] == ts[1..] + [t];
      JoinSnoc(ts[1..], t, sep);
    }
  }

  /** The prompt ends with the model's verdict line, `(none)` standing in for a missing verdict. */
  lemma CriticPromptEndsWithVerdict(evidence: string, rubric: seq<Stage>, verdict: Option<string>)
    ensures var head := Join(CriticPromptHead(evidence, rubric), "\n");
      ScoreCriticUserPrompt(evidence, rubric, verdict) == head + "\n" + "MODEL_VERDICT: " + VerdictText(verdict)
    ensures verdict.None? ==> var head := Join(CriticPromptHead(evidence, rubric), "\n");
      ScoreCriticUserPrompt(evidence, rubric, verdict) == head + "\n" + "MODEL_VERDICT: " + "(none)"
  {
    var lines := CriticPromptHead(evidence, rubric);
    var text := VerdictText(verdict);
    JoinSnoc(lines, "MODEL_VERDICT: " + text, "\n");
    ConcatAssoc(Join(lines, "\n") + "\n", "MODEL_VERDICT: ", text);
  }

  lemma ConcatAssoc(a: string, b: string, c: string)
    ensures a + (b + c) == a + b + c
  {
  }
}
