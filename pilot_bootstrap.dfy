/**
 * The notebook's bootstrap of the closed-world combination per (model,
 * evidence) cell: resample the non-abstaining masses with replacement,
 * re-combine, and record the spread of betP, the conflict and how often
 * the dominant stage differs from the point estimate's.
 */
module PilotBootstrap {
  import opened Wrappers
  import opened DempsterShafer
  import opened Tbm
  import opened PilotEncoders
  import opened PilotCombination
  import opened PilotAggregation

  const N_BOOT: nat := 1000

  // ---------------------------------------------------------------------
  // The dominant stage of one iteration

  /**
   * The winner after the loop has looked at the first n stages: it starts
   * at (stages[0], 0.0) and moves only to a strictly larger value.
   */
  function BestAfter(stages: seq<int>, vals: seq<real>, n: nat): (r: (int, real))
    requires 0 < |stages| && n <= |vals| == |stages|
  {
    if n == 0 then (stages[0], 0.0)
    else
      var prev := BestAfter(stages, vals, n - 1);
      if vals[n - 1] > prev.1 then (stages[n - 1], vals[n - 1]) else prev
  }

  /** The loop over the stages that picks the dominant stage of one iteration. */
  method DominantStage(stages: seq<int>, vals: seq<real>) returns (best: int)
    requires 0 < |vals| == |stages|
    ensures best == BestAfter(stages, vals, |stages|).0
  {
    var bestS, bestV := stages[0], 0.0;
    var i := 0;
    while i < |stages|
      invariant 0 <= i <= |stages|
      invariant (bestS, bestV) == BestAfter(stages, vals, i)
    {
      if vals[i] > bestV {
        bestS, bestV := stages[i], vals[i];
      }
      i := i + 1;
    }
    best := bestS;
  }

  /** Position k holds the first largest of the first n values, and that value is positive. */
  predicate FirstMaxAt(vals: seq<real>, n: nat, k: nat)
    requires n <= |vals|
  {
    k < n && vals[k] > 0.0 &&
    (forall i :: 0 <= i < n ==> vals[i] <= vals[k]) &&
    (forall i :: 0 <= i < k ==> vals[i] < vals[k])
  }

  /**
   * Reference rule for a winner after n stages: it is (stages[0], 0.0) while no
   * value is positive, and otherwise carries the largest value at its first position.
   */
  predicate WinnerRule(stages: seq<int>, vals: seq<real>, n: nat, r: (int, real))
    requires 0 < |stages| && n <= |vals| == |stages|
  {
    ((forall i :: 0 <= i < n ==> vals[i] <= 0.0) && r == (stages[0], 0.0)) ||
    (exists k: nat :: k < n && FirstMaxAt(vals, n, k) && r == (stages[k], vals[k]))
  }

  lemma {:induction false} BestAfterRule(stages: seq<int>, vals: seq<real>, n: nat)
    requires 0 < |stages| && n <= |vals| == |stages|
    ensures WinnerRule(stages, vals, n, BestAfter(stages, vals, n))
  {
    if n > 0 {
      BestAfterRule(stages, vals, n - 1);
      var prev := BestAfter(stages, vals, n - 1);
      if exists k: nat :: k < n - 1 && FirstMaxAt(vals, n - 1, k) && prev == (stages[k], vals[k]) {
        var k: nat :| k < n - 1 && FirstMaxAt(vals, n - 1, k) && prev == (stages[k], vals[k]);
        if vals[n - 1] > prev.1 {
          assert FirstMaxAt(vals, n, n - 1);
        } else {
          assert vals[n - 1] <= vals[k];
          assert forall i :: 0 <= i < n - 1 ==> vals[i] <= vals[k];
          assert FirstMaxAt(vals, n, k);
        }
      } else if vals[n - 1] > 0.0 {
        assert FirstMaxAt(vals, n, n - 1);
      }
    }
  }

  /**
   * With non-negative values the bootstrap's winner is the stage Python's
   * `max(stages, key=...)` picks, so point estimate and iterations use one
   * tie rule; with every value zero both pick stages[0].
   */
  lemma DominantAgreesWithMax(stages: seq<int>, vals: seq<real>)
    requires 0 < |vals| == |stages|
    requires forall i :: 0 <= i < |vals| ==> 0.0 <= vals[i]
    ensures BestAfter(stages, vals, |stages|).0 == stages[FirstArgMax(vals)]
  {
    var m := FirstArgMax(vals);
    BestAfterRule(stages, vals, |stages|);
    if exists i :: 0 <= i < |vals| && vals[i] > 0.0 {
      var k: nat :| k < |vals| && FirstMaxAt(vals, |vals|, k) && BestAfter(stages, vals, |stages|) == (stages[k], vals[k]);
      assert vals[m] == vals[k];
      assert m == k;
    } else {
      assert vals[0] == 0.0 && vals[m] == 0.0;
    }
  }

  // ---------------------------------------------------------------------
  // One bootstrap iteration

  predicate ValidDraw(draw: seq<int>, n: nat)
  {
    |draw| == n && forall j :: 0 <= j < |draw| ==> 0 <= draw[j] < n
  }

  function Resample(masses: seq<Mass>, draw: seq<int>): (r: seq<Mass>)
    requires ValidDraw(draw, |masses|)
    ensures |r| == |draw| && forall j :: 0 <= j < |draw| ==> r[j] == masses[draw[j]]
  {
    seq(|draw|, j requires 0 <= j < |draw| => masses[draw[j]])
  }

  /** The betP values of one iteration's normalised combination. */
  function DrawBetP(masses: seq<Mass>, draw: seq<int>, stages: seq<int>): (r: seq<real>)
    requires |masses| > 0 && ValidDraw(draw, |masses|)
    ensures |r| == |stages|
  {
    BetPs(FoldNormalised(Resample(masses, draw)), stages)
  }

  /** The conflict m(∅) of one iteration's unnormalised combination. */
  function DrawConflict(masses: seq<Mass>, draw: seq<int>): real
    requires |masses| > 0 && ValidDraw(draw, |masses|)
  {
    Get(FoldUnnormalised(Resample(masses, draw)), {})
  }

  function DrawDominant(masses: seq<Mass>, draw: seq<int>, stages: seq<int>): int
    requires |masses| > 0 && ValidDraw(draw, |masses|) && |stages| > 0
  {
    BestAfter(stages, DrawBetP(masses, draw, stages), |stages|).0
  }

  predicate ValidDraws(draws: seq<seq<int>>, n: nat)
  {
    forall k :: 0 <= k < |draws| ==> ValidDraw(draws[k], n)
  }

  /** The betP of stage position t over the first k iterations. */
  function Column(masses: seq<Mass>, draws: seq<seq<int>>, stages: seq<int>, t: nat, k: nat): (c: seq<real>)
    requires |masses| > 0 && ValidDraws(draws, |masses|) && t < |stages| && k <= |draws|
    ensures |c| == k
  {
    seq(k, j requires 0 <= j < k => DrawBetP(masses, draws[j], stages)[t])
  }

  function Conflicts(masses: seq<Mass>, draws: seq<seq<int>>, k: nat): (c: seq<real>)
    requires |masses| > 0 && ValidDraws(draws, |masses|) && k <= |draws|
    ensures |c| == k
  {
    seq(k, j requires 0 <= j < k => DrawConflict(masses, draws[j]))
  }

  function Dominants(masses: seq<Mass>, draws: seq<seq<int>>, stages: seq<int>, k: nat): (c: seq<int>)
    requires |masses| > 0 && ValidDraws(draws, |masses|) && k <= |draws| && |stages| > 0
    ensures |c| == k
  {
    seq(k, j requires 0 <= j < k => DrawDominant(masses, draws[j], stages))
  }

  // ---------------------------------------------------------------------
  // Summaries of a cell

  function Mean(xs: seq<real>): real
    requires |xs| > 0
  {
    Sum(xs) / |xs| as real
  }

  function SortedReals(xs: seq<real>): (r: seq<real>)
    ensures |r| == |xs|
  {
    Values(SortByValue(seq(|xs|, i requires 0 <= i < |xs| => (xs[i], 0.0))))
  }

  /** `np.percentile(xs, p)` with linear interpolation, for p = 100 q. */
  function Percentile(xs: seq<real>, q: real): real
    requires |xs| > 0 && 0.0 <= q <= 1.0
  {
    Quantile(SortedReals(xs), q)
  }

  function CountDiffering(xs: seq<int>, x: int): (r: nat)
    ensures r <= |xs|
  {
    if |xs| == 0 then 0
    else CountDiffering(xs[..|xs| - 1], x) + (if xs[|xs| - 1] != x then 1 else 0)
  }

  /** The fraction of iterations whose dominant stage differs from the point estimate's. */
  function FlipRate(dominants: seq<int>, orig: int): (r: real)
    requires |dominants| > 0
    ensures 0.0 <= r <= 1.0
    ensures r == 0.0 <==> forall j :: 0 <= j < |dominants| ==> dominants[j] == orig
  {
    CountZero(dominants, orig);
    CountDiffering(dominants, orig) as real / |dominants| as real
  }

  lemma {:induction false} CountZero(xs: seq<int>, x: int)
    ensures CountDiffering(xs, x) == 0 <==> forall j :: 0 <= j < |xs| ==> xs[j] == x
  {
    if |xs| > 0 {
      CountZero(xs[..|xs| - 1], x);
      if xs[|xs| - 1] == x {
        assert forall j :: 0 <= j < |xs| - 1 ==> xs[..|xs| - 1][j] == xs[j];
      }
    }
  }

  /** The share of abstentions among the cell's responses, 0 for none. */
  function AbstainRate(nMasses: nat, nAbstained: nat): (r: real)
    ensures 0.0 <= r <= 1.0
    ensures nMasses + nAbstained == 0 ==> r == 0.0
    ensures nAbstained == 0 ==> r == 0.0
  {
    if nMasses + nAbstained > 0 then nAbstained as real / (nMasses + nAbstained) as real else 0.0
  }

  datatype Cell = Cell(model: string, tag: string, evidence: string, responses: seq<Response>)

  datatype SkipRecord = SkipRecord(model: string, evidence: string, nActive: nat, nAbstained: nat)

  datatype BootRow = BootRow(model: string, tag: string, evidence: string, stage: int,
                             betPPoint: real, betPMean: real, betPQ025: real, betPQ975: real,
                             conflictPoint: real, conflictMean: real,
                             nActive: nat, nAbstained: nat, abstainRate: real, flipRate: real)

  /** A cell contributes nothing, a skipped record, or one row per stage. */
  datatype Outcome = NoScores | Skipped(record: SkipRecord) | Rows(rows: seq<BootRow>)

  function CellMasses(c: Cell, scaleSize: nat): seq<Mass>
  {
    ClosedMasses(c.responses, Theta(scaleSize))
  }

  /** The iteration data the rows are computed from, as the loop collects it. */
  datatype Collected = Collected(betPs: seq<seq<real>>, conflicts: seq<real>, dominants: seq<int>)

  function CollectSpec(masses: seq<Mass>, draws: seq<seq<int>>, stages: seq<int>): (r: Collected)
    requires |masses| > 0 && ValidDraws(draws, |masses|) && |stages| > 0
    ensures |r.betPs| == |stages| && |r.conflicts| == |draws| && |r.dominants| == |draws|
    ensures forall t :: 0 <= t < |stages| ==> |r.betPs[t]| == |draws|
  {
    Collected(seq(|stages|, t requires 0 <= t < |stages| => Column(masses, draws, stages, t, |draws|)),
              Conflicts(masses, draws, |draws|), Dominants(masses, draws, stages, |draws|))
  }

  /** The point estimate: the combination of all of a cell's masses, normalised and not. */
  datatype Point = Point(normalised: Mass, unnormalised: Mass)

  function PointOf(masses: seq<Mass>): (pt: Point)
    ensures |masses| > 0 ==> pt.normalised == FoldNormalised(masses) && pt.unnormalised == FoldUnnormalised(masses)
  {
    if |masses| == 0 then Point([], []) else Point(FoldNormalised(masses), FoldUnnormalised(masses))
  }

  function RowsOf(c: Cell, nActive: nat, nAbstained: nat, pt: Point, col: Collected, stages: seq<int>): (rows: seq<BootRow>)
    requires |stages| > 0 && |col.betPs| == |stages| && |col.conflicts| > 0
    requires |col.dominants| > 0 && forall t :: 0 <= t < |stages| ==> |col.betPs[t]| > 0
    ensures |rows| == |stages|
  {
    var point := BetPs(pt.normalised, stages);
    var conflictPoint := Get(pt.unnormalised, {});
    var origDominant := stages[FirstArgMax(point)];
    var flip := FlipRate(col.dominants, origDominant);
    seq(|stages|, t requires 0 <= t < |stages| =>
      BootRow(c.model, c.tag, c.evidence, stages[t], point[t], Mean(col.betPs[t]),
              Percentile(col.betPs[t], 0.025), Percentile(col.betPs[t], 0.975),
              conflictPoint, Mean(col.conflicts), nActive, nAbstained,
              AbstainRate(nActive, nAbstained), flip))
  }

  /** What one cell of the bootstrap loop produces, given its closed-world masses and their point estimate. */
  function CellOutcome(c: Cell, masses: seq<Mass>, pt: Point, draws: seq<seq<int>>, stages: seq<int>): Outcome
    requires |masses| <= |c.responses| && |draws| > 0 && ValidDraws(draws, |masses|) && |stages| > 0
  {
    var nAbstained := |c.responses| - |masses|;
    if |c.responses| == 0 then NoScores
    else if |masses| < 2 then Skipped(SkipRecord(c.model, c.evidence, |masses|, nAbstained))
    else Rows(RowsOf(c, |masses|, nAbstained, pt, CollectSpec(masses, draws, stages), stages))
  }

  lemma OutcomeRows(c: Cell, masses: seq<Mass>, pt: Point, draws: seq<seq<int>>, stages: seq<int>)
    requires |masses| <= |c.responses| && |draws| > 0 && ValidDraws(draws, |masses|) && |stages| > 0
    requires |masses| >= 2
    ensures CellOutcome(c, masses, pt, draws, stages) ==
            Rows(RowsOf(c, |masses|, |c.responses| - |masses|, pt, CollectSpec(masses, draws, stages), stages))
  {
  }

  /** What one cell of the bootstrap loop produces. */
  function CellSpec(c: Cell, draws: seq<seq<int>>, scaleSize: nat): Outcome
    requires scaleSize > 0 && |draws| == N_BOOT && ValidDraws(draws, |CellMasses(c, scaleSize)|)
  {
    var masses := CellMasses(c, scaleSize);
    CellOutcome(c, masses, PointOf(masses), draws, Stages(scaleSize))
  }

  /** The rows of a cell with at least two non-abstaining responses. */
  function CellRows(c: Cell, draws: seq<seq<int>>, scaleSize: nat): seq<BootRow>
    requires scaleSize > 0 && |draws| == N_BOOT && ValidDraws(draws, |CellMasses(c, scaleSize)|)
    requires |CellMasses(c, scaleSize)| >= 2
  {
    var masses := CellMasses(c, scaleSize);
    RowsOf(c, |masses|, |c.responses| - |masses|, PointOf(masses), CollectSpec(masses, draws, Stages(scaleSize)), Stages(scaleSize))
  }

  /** One cell of the bootstrap loop. */
  method BootstrapCell(c: Cell, draws: seq<seq<int>>, scaleSize: nat) returns (out: Outcome)
    requires scaleSize > 0 && |draws| == N_BOOT && ValidDraws(draws, |CellMasses(c, scaleSize)|)
    ensures out == CellSpec(c, draws, scaleSize)
  {
    if |c.responses| == 0 {
      return NoScores;
    }
    var stages := Stages(scaleSize);
    var masses, nAbstained := ActiveMasses(c.responses, Theta(scaleSize));
    if |masses| < 2 {
      return Skipped(SkipRecord(c.model, c.evidence, |masses|, nAbstained));
    }
    var col := Collect(masses, draws, stages);
    assert masses == CellMasses(c, scaleSize);
    var pt := PointOf(masses);
    assert CellSpec(c, draws, scaleSize) == CellOutcome(c, masses, pt, draws, stages);
    OutcomeRows(c, masses, pt, draws, stages);
    out := Rows(RowsOf(c, |masses|, nAbstained, pt, col, stages));
  }

  /** The closed-world masses of a cell's responses, counting the abstentions. */
  method ActiveMasses(responses: seq<Response>, theta: set<int>) returns (masses: seq<Mass>, nAbstained: nat)
    ensures masses == ClosedMasses(responses, theta)
    ensures nAbstained == |responses| - |masses|
  {
    masses := [];
    nAbstained := 0;
    var j := 0;
    while j < |responses|
      invariant 0 <= j <= |responses|
      invariant masses == ClosedMasses(responses[..j], theta)
      invariant nAbstained == j - |masses|
    {
      assert responses[..j + 1][..j] == responses[..j];
      var m := ResponseToMassClosed(responses[j], theta);
      if m.Some? {
        masses := masses + [m.value];
      } else {
        nAbstained := nAbstained + 1;
      }
      j := j + 1;
    }
    assert responses[..j] == responses;
  }

  /** The N_BOOT iterations: each resamples, combines, and appends to the per-stage lists. */
  method Collect(masses: seq<Mass>, draws: seq<seq<int>>, stages: seq<int>) returns (col: Collected)
    requires |masses| > 0 && ValidDraws(draws, |masses|) && |stages| > 0
    ensures col == CollectSpec(masses, draws, stages)
  {
    var betPs: seq<seq<real>> := seq(|stages|, t => []);
    var conflicts: seq<real> := [];
    var dominants: seq<int> := [];
    var k := 0;
    while k < |draws|
      invariant 0 <= k <= |draws|
      invariant |betPs| == |stages|
      invariant forall t :: 0 <= t < |stages| ==> betPs[t] == Column(masses, draws, stages, t, k)
      invariant conflicts == Conflicts(masses, draws, k)
      invariant dominants == Dominants(masses, draws, stages, k)
    {
      var resampled := Resample(masses, draws[k]);
      conflicts := conflicts + [Get(FoldUnnormalised(resampled), {})];
      var pign := BetPs(FoldNormalised(resampled), stages);
      assert pign == DrawBetP(masses, draws[k], stages);
      var bestS;
      betPs, bestS := AppendStageValues(betPs, pign, stages);
      forall t | 0 <= t < |stages| ensures betPs[t] == Column(masses, draws, stages, t, k + 1) {
        ColumnStep(masses, draws, stages, t, k);
      }
      DrawStep(masses, draws, stages, k);
      dominants := dominants + [bestS];
      k := k + 1;
    }
    col := Collected(betPs, conflicts, dominants);
  }

  /** The loop over the stages of one iteration: append each stage's value to its list and pick the dominant stage. */
  method AppendStageValues(betPs: seq<seq<real>>, pign: seq<real>, stages: seq<int>) returns (next: seq<seq<real>>, bestS: int)
    requires 0 < |stages| && |betPs| == |pign| == |stages|
    ensures |next| == |stages| && forall u :: 0 <= u < |stages| ==> next[u] == betPs[u] + [pign[u]]
    ensures bestS == BestAfter(stages, pign, |stages|).0
  {
    next := betPs;
    bestS := stages[0];
    var bestV := 0.0;
    var t := 0;
    while t < |stages|
      invariant 0 <= t <= |stages|
      invariant |next| == |stages|
      invariant forall u :: 0 <= u < t ==> next[u] == betPs[u] + [pign[u]]
      invariant forall u :: t <= u < |stages| ==> next[u] == betPs[u]
      invariant (bestS, bestV) == BestAfter(stages, pign, t)
    {
      next := next[t := next[t] + [pign[t]]];
      if pign[t] > bestV {
        bestS, bestV := stages[t], pign[t];
      }
      t := t + 1;
    }
  }

  lemma DrawStep(masses: seq<Mass>, draws: seq<seq<int>>, stages: seq<int>, k: nat)
    requires |masses| > 0 && ValidDraws(draws, |masses|) && |stages| > 0 && k < |draws|
    ensures Conflicts(masses, draws, k + 1) == Conflicts(masses, draws, k) + [DrawConflict(masses, draws[k])]
    ensures Dominants(masses, draws, stages, k + 1) == Dominants(masses, draws, stages, k) + [DrawDominant(masses, draws[k], stages)]
  {
    assert Conflicts(masses, draws, k + 1) == Conflicts(masses, draws, k) + [DrawConflict(masses, draws[k])];
  }

  lemma ColumnStep(masses: seq<Mass>, draws: seq<seq<int>>, stages: seq<int>, t: nat, k: nat)
    requires |masses| > 0 && ValidDraws(draws, |masses|) && t < |stages| && k < |draws|
    ensures Column(masses, draws, stages, t, k + 1) ==
            Column(masses, draws, stages, t, k) + [DrawBetP(masses, draws[k], stages)[t]]
  {
  }

  // ---------------------------------------------------------------------
  // The whole loop over cells

  datatype BootTables = BootTables(results: seq<BootRow>, skipped: seq<SkipRecord>)

  predicate DrawsFit(cells: seq<Cell>, draws: seq<seq<seq<int>>>, scaleSize: nat)
  {
    |draws| == |cells| &&
    forall i :: 0 <= i < |cells| ==> |draws[i]| == N_BOOT && ValidDraws(draws[i], |CellMasses(cells[i], scaleSize)|)
  }

  function TablesSpec(cells: seq<Cell>, draws: seq<seq<seq<int>>>, scaleSize: nat): BootTables
    requires scaleSize > 0 && DrawsFit(cells, draws, scaleSize)
  {
    if |cells| == 0 then BootTables([], [])
    else
      var n := |cells| - 1;
      var rest := TablesSpec(cells[..n], draws[..n], scaleSize);
      match CellSpec(cells[n], draws[n], scaleSize)
      case NoScores => rest
      case Skipped(r) => BootTables(rest.results, rest.skipped + [r])
      case Rows(rows) => BootTables(rest.results + rows, rest.skipped)
  }

  /**
   * The bootstrap cell: `cells` are the (tag, evidence) pairs in loop order,
   * `draws[i]` the index vectors the generator yields for cell i.
   */
  method Bootstrap(cells: seq<Cell>, draws: seq<seq<seq<int>>>, scaleSize: nat) returns (tables: BootTables)
    requires scaleSize > 0 && DrawsFit(cells, draws, scaleSize)
    ensures tables == TablesSpec(cells, draws, scaleSize)
  {
    var results: seq<BootRow> := [];
    var skipped: seq<SkipRecord> := [];
    var i := 0;
    while i < |cells|
      invariant 0 <= i <= |cells|
      invariant DrawsFit(cells[..i], draws[..i], scaleSize)
      invariant BootTables(results, skipped) == TablesSpec(cells[..i], draws[..i], scaleSize)
    {
      assert cells[..i + 1][..i] == cells[..i];
      assert draws[..i + 1][..i] == draws[..i];
      var out := BootstrapCell(cells[i], draws[i], scaleSize);
      match out {
        case NoScores =>
        case Skipped(r) => skipped := skipped + [r];
        case Rows(rows) => results := results + rows;
      }
      i := i + 1;
    }
    assert cells[..i] == cells;
    assert draws[..i] == draws;
    tables := BootTables(results, skipped);
  }

  // ---------------------------------------------------------------------
  // Properties of a cell

  /**
   * A cell with responses but fewer than two non-abstaining ones is skipped,
   * and its record carries both counts; otherwise it has one row per stage.
   */
  lemma CellSkipRule(c: Cell, draws: seq<seq<int>>, scaleSize: nat)
    requires scaleSize > 0 && |draws| == N_BOOT && ValidDraws(draws, |CellMasses(c, scaleSize)|)
    requires |c.responses| > 0
    ensures |CellMasses(c, scaleSize)| + |AbstainedIndices(c.responses)| == |c.responses|
    ensures |CellMasses(c, scaleSize)| < 2 <==> CellSpec(c, draws, scaleSize).Skipped?
    ensures CellSpec(c, draws, scaleSize).Skipped? ==>
              CellSpec(c, draws, scaleSize).record ==
              SkipRecord(c.model, c.evidence, |CellMasses(c, scaleSize)|, |AbstainedIndices(c.responses)|)
    ensures !CellSpec(c, draws, scaleSize).Skipped? ==>
              CellSpec(c, draws, scaleSize).Rows? && |CellSpec(c, draws, scaleSize).rows| == scaleSize
  {
    assert 1 in Theta(scaleSize);
    ClosedMassesCount(c.responses, Theta(scaleSize));
  }

  /**
   * Every row of a bootstrapped cell: 0 <= flip_rate <= 1, 0 <= abstain_rate <= 1,
   * n_active >= 2, and, when agreements lie in [0, 1], every betP statistic lies in [0, 1].
   */
  lemma CellRowBounds(c: Cell, draws: seq<seq<int>>, scaleSize: nat)
    requires scaleSize > 0 && |draws| == N_BOOT && ValidDraws(draws, |CellMasses(c, scaleSize)|)
    requires |CellMasses(c, scaleSize)| >= 2
    requires forall i :: 0 <= i < |c.responses| && c.responses[i].agreement.Some?
               ==> 0.0 <= c.responses[i].agreement.value <= 1.0
    ensures forall r :: r in CellRows(c, draws, scaleSize) ==>
              0.0 <= r.flipRate <= 1.0 && 0.0 <= r.abstainRate <= 1.0 && r.nActive >= 2 &&
              0.0 <= r.betPPoint <= 1.0 && 0.0 <= r.betPMean <= 1.0 &&
              0.0 <= r.betPQ025 <= 1.0 && 0.0 <= r.betPQ975 <= 1.0
  {
    var masses := CellMasses(c, scaleSize);
    var stages := Stages(scaleSize);
    assert 1 in Theta(scaleSize);
    ClosedMassesProper(c.responses, Theta(scaleSize));
    CollectBounds(masses, draws, stages);
    PointBounds(masses, stages);
    RowsOfBounds(c, |masses|, |c.responses| - |masses|, PointOf(masses), CollectSpec(masses, draws, stages), stages);
  }

  /** The point estimate's betP values lie in [0, 1]. */
  lemma PointBounds(masses: seq<Mass>, stages: seq<int>)
    requires |masses| > 0 && AllProper(masses)
    ensures forall t :: 0 <= t < |stages| ==> 0.0 <= BetPs(FoldNormalised(masses), stages)[t] <= 1.0
  {
    FoldNormalisedProper(masses);
    forall t | 0 <= t < |stages| ensures 0.0 <= BetPs(FoldNormalised(masses), stages)[t] <= 1.0 {
      PignisticBounds(FoldNormalised(masses), stages[t]);
    }
  }

  /** Every collected betP value lies in [0, 1]. */
  lemma CollectBounds(masses: seq<Mass>, draws: seq<seq<int>>, stages: seq<int>)
    requires |masses| > 0 && ValidDraws(draws, |masses|) && |stages| > 0 && AllProper(masses)
    ensures var col := CollectSpec(masses, draws, stages);
            forall t, j :: 0 <= t < |stages| && 0 <= j < |col.betPs[t]| ==> 0.0 <= col.betPs[t][j] <= 1.0
  {
    var col := CollectSpec(masses, draws, stages);
    forall t, j | 0 <= t < |stages| && 0 <= j < |col.betPs[t]| ensures 0.0 <= col.betPs[t][j] <= 1.0 {
      assert col.betPs[t] == Column(masses, draws, stages, t, |draws|);
      DrawBetPBounds(masses, draws[j], stages, t);
    }
  }

  /** The rows of a cell inherit the bounds of its point estimate and of its collected values. */
  lemma RowsOfBounds(c: Cell, nActive: nat, nAbstained: nat, pt: Point, col: Collected, stages: seq<int>)
    requires nActive >= 2 && |stages| > 0 && |col.betPs| == |stages| && |col.conflicts| > 0
    requires |col.dominants| > 0 && forall t :: 0 <= t < |stages| ==> |col.betPs[t]| > 0
    requires forall t :: 0 <= t < |stages| ==> 0.0 <= BetPs(pt.normalised, stages)[t] <= 1.0
    requires forall t, j :: 0 <= t < |stages| && 0 <= j < |col.betPs[t]| ==> 0.0 <= col.betPs[t][j] <= 1.0
    ensures forall r :: r in RowsOf(c, nActive, nAbstained, pt, col, stages) ==>
              0.0 <= r.flipRate <= 1.0 && 0.0 <= r.abstainRate <= 1.0 && r.nActive >= 2 &&
              0.0 <= r.betPPoint <= 1.0 && 0.0 <= r.betPMean <= 1.0 &&
              0.0 <= r.betPQ025 <= 1.0 && 0.0 <= r.betPQ975 <= 1.0
  {
    var rows := RowsOf(c, nActive, nAbstained, pt, col, stages);
    forall t | 0 <= t < |stages|
      ensures 0.0 <= rows[t].betPMean <= 1.0
      ensures 0.0 <= rows[t].betPQ025 <= 1.0 && 0.0 <= rows[t].betPQ975 <= 1.0
    {
      MeanBounds(col.betPs[t]);
      SortedRealsWithin(col.betPs[t]);
      QuantileWithin(SortedReals(col.betPs[t]), 0.025, 0.0, 1.0);
      QuantileWithin(SortedReals(col.betPs[t]), 0.975, 0.0, 1.0);
    }
  }

  /** Each iteration resamples proper masses, so its betP values lie in [0, 1]. */
  lemma DrawBetPBounds(masses: seq<Mass>, draw: seq<int>, stages: seq<int>, t: nat)
    requires |masses| > 0 && ValidDraw(draw, |masses|) && t < |stages|
    requires AllProper(masses)
    ensures 0.0 <= DrawBetP(masses, draw, stages)[t] <= 1.0
  {
    var r := Resample(masses, draw);
    assert AllProper(r);
    FoldNormalisedProper(r);
    PignisticBounds(FoldNormalised(r), stages[t]);
  }

  lemma MeanBounds(xs: seq<real>)
    requires |xs| > 0 && forall j :: 0 <= j < |xs| ==> 0.0 <= xs[j] <= 1.0
    ensures 0.0 <= Mean(xs) <= 1.0
  {
    WeightedMeanBounds(xs, Ones(|xs|), 0.0, 1.0) by {
      SumOnes(|xs|);
    }
    DotOnes(xs);
    SumOnes(|xs|);
  }

  lemma {:induction false} DotOnes(xs: seq<real>)
    ensures Dot(xs, Ones(|xs|)) == Sum(xs)
  {
    if |xs| > 0 {
      assert Ones(|xs|)[1..] == Ones(|xs| - 1);
      DotOnes(xs[1..]);
    }
  }

  lemma SortedRealsWithin(xs: seq<real>)
    requires forall j :: 0 <= j < |xs| ==> 0.0 <= xs[j] <= 1.0
    ensures forall j :: 0 <= j < |xs| ==> 0.0 <= SortedReals(xs)[j] <= 1.0
  {
    var pairs := seq(|xs|, i requires 0 <= i < |xs| => (xs[i], 0.0));
    SortWithin(pairs, 0.0, 1.0);
  }

  /**
   * With agreements in [0, 1] every iteration's dominant stage follows the
   * same first-maximum rule as the point estimate's, so a flip is a real
   * change of the modal stage and not an artefact of tie-breaking.
   */
  lemma IterationDominantIsModal(masses: seq<Mass>, draw: seq<int>, stages: seq<int>)
    requires |masses| > 0 && ValidDraw(draw, |masses|) && |stages| > 0
    requires AllProper(masses)
    ensures DrawDominant(masses, draw, stages) == stages[FirstArgMax(DrawBetP(masses, draw, stages))]
  {
    var vals := DrawBetP(masses, draw, stages);
    forall t | 0 <= t < |stages| ensures 0.0 <= vals[t] {
      DrawBetPBounds(masses, draw, stages, t);
    }
    DominantAgreesWithMax(stages, vals);
  }
}
