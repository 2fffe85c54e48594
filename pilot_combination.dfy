/**
 * The notebook's per-response and per-rubric cells: pignistic summaries of
 * single responses, and the fold-combination of every rubric's responses
 * under the open-world (unnormalised) and closed-world (normalised) rules.
 */
module PilotCombination {
  import opened Wrappers
  import opened DempsterShafer
  import opened Tbm
  import opened PilotEncoders

  /** Above this conflict the open-world pignistic transform is treated as empty. */
  const PIGNISTIC_CONFLICT_CAP: real := 0.9999

  // ---------------------------------------------------------------------
  // Python's max over a list and max with a key

  /** `max(values)`. */
  function MaxOf(v: seq<real>): (r: real)
    requires |v| > 0
    ensures forall i :: 0 <= i < |v| ==> v[i] <= r
    ensures exists i :: 0 <= i < |v| && v[i] == r
  {
    if |v| == 1 then v[0]
    else
      var m := MaxOf(v[..|v| - 1]);
      assert forall i :: 0 <= i < |v| - 1 ==> v[..|v| - 1][i] == v[i];
      if v[|v| - 1] > m then v[|v| - 1] else m
  }

  /**
   * The position `max(stages, key=...)` picks: the first maximal value,
   * because Python replaces the running best only on a strictly larger key.
   */
  function FirstArgMax(v: seq<real>): (r: nat)
    requires |v| > 0
    ensures r < |v|
    ensures forall i :: 0 <= i < |v| ==> v[i] <= v[r]
    ensures forall i :: 0 <= i < r ==> v[i] < v[r]
  {
    if |v| == 1 then 0
    else
      var k := FirstArgMax(v[..|v| - 1]);
      assert forall i :: 0 <= i < |v| - 1 ==> v[..|v| - 1][i] == v[i];
      if v[|v| - 1] > v[k] then |v| - 1 else k
  }

  /** The modal stage carries the maximal value. */
  lemma FirstArgMaxIsMax(v: seq<real>)
    requires |v| > 0
    ensures v[FirstArgMax(v)] == MaxOf(v)
  {
    var k := FirstArgMax(v);
    var i :| 0 <= i < |v| && v[i] == MaxOf(v);
    assert v[i] <= v[k] && v[k] <= MaxOf(v);
  }

  // ---------------------------------------------------------------------
  // Summaries of one mass function over the stages

  function BetPs(m: Mass, stages: seq<int>): (r: seq<real>)
    ensures |r| == |stages|
    ensures forall i :: 0 <= i < |stages| ==> r[i] == Pignistic(m, stages[i])
  {
    seq(|stages|, i requires 0 <= i < |stages| => Pignistic(m, stages[i]))
  }

  function Beliefs(m: Mass, stages: seq<int>): (r: seq<real>)
    ensures |r| == |stages|
    ensures forall i :: 0 <= i < |stages| ==> r[i] == Belief(m, {stages[i]})
  {
    seq(|stages|, i requires 0 <= i < |stages| => Belief(m, {stages[i]}))
  }

  function Plausibilities(m: Mass, stages: seq<int>, theta: set<int>): (r: seq<real>)
    ensures |r| == |stages|
    ensures forall i :: 0 <= i < |stages| ==> r[i] == Plausibility(m, {stages[i]}, theta)
  {
    seq(|stages|, i requires 0 <= i < |stages| => Plausibility(m, {stages[i]}, theta))
  }

  function Zeros(n: nat): (r: seq<real>)
    ensures |r| == n && forall i :: 0 <= i < n ==> r[i] == 0.0
  {
    seq(n, i => 0.0)
  }

  /** The betP_* columns, max_betP and modal_stage of a record. */
  datatype Pign = Pign(betP: seq<real>, maxBetP: real, modalStage: int)

  function Summarise(betP: seq<real>, stages: seq<int>): (r: Pign)
    requires |betP| == |stages| > 0
    ensures r.betP == betP && r.maxBetP == MaxOf(betP) && r.modalStage == stages[FirstArgMax(betP)]
  {
    Pign(betP, MaxOf(betP), stages[FirstArgMax(betP)])
  }

  // ---------------------------------------------------------------------
  // Per-response records (open world)

  /** One scored response with the model of its experiment. */
  datatype ScoreRow = ScoreRow(model: string, tag: string, evidence: string, rubricId: string, response: Response)

  datatype ResponseRecord = ResponseRecord(model: string, tag: string, evidence: string, rubricId: string,
                                           abstained: bool, conflict: real, pign: Pign)

  /** The record of one response: its own conflict m(∅) and pignistic summary. */
  function OpenRecord(row: ScoreRow, scaleSize: nat): ResponseRecord
    requires scaleSize > 0
  {
    var m := ResponseToMass(row.response, Theta(scaleSize));
    ResponseRecord(row.model, row.tag, row.evidence, row.rubricId, row.response.abstained,
                   Get(m, {}), Summarise(BetPs(m, Stages(scaleSize)), Stages(scaleSize)))
  }

  /** One record per response, in order: the table the loop is meant to build. */
  function OpenRecordsSpec(scores: seq<ScoreRow>, scaleSize: nat): (rows: seq<ResponseRecord>)
    requires scaleSize > 0
    ensures |rows| == |scores|
    ensures forall i :: 0 <= i < |scores| ==> rows[i] == OpenRecord(scores[i], scaleSize)
  {
    seq(|scores|, i requires 0 <= i < |scores| => OpenRecord(scores[i], scaleSize))
  }

  /** Every element twice in a row. */
  function DoubleEach(s: seq<ResponseRecord>): (r: seq<ResponseRecord>)
    ensures |r| == 2 * |s|
  {
    if |s| == 0 then [] else DoubleEach(s[..|s| - 1]) + [s[|s| - 1], s[|s| - 1]]
  }

  lemma RecordsSnoc(s: seq<ResponseRecord>, i: nat)
    requires i < |s|
    ensures s[..i + 1] == s[..i] + [s[i]]
  {
  }

  /** Doubling one more element appends it twice. */
  lemma DoubleEachSnoc(s: seq<ResponseRecord>, i: nat)
    requires i < |s|
    ensures DoubleEach(s[..i + 1]) == DoubleEach(s[..i]) + [s[i]] + [s[i]]
  {
    assert s[..i + 1][..i] == s[..i];
  }

  /** Positions 2i and 2i+1 of the doubled table both hold the i-th record. */
  lemma {:induction false} DoubleEachIndex(s: seq<ResponseRecord>, i: nat)
    requires i < |s|
    ensures DoubleEach(s)[2 * i] == s[i] && DoubleEach(s)[2 * i + 1] == s[i]
    decreases |s|
  {
    if i < |s| - 1 {
      DoubleEachIndex(s[..|s| - 1], i);
    }
  }

  /**
   * The per-response loop as written: every record is appended twice, so
   * the table has two identical rows per response.
   */
  method OpenRecordsAsWritten(scores: seq<ScoreRow>, scaleSize: nat) returns (rows: seq<ResponseRecord>)
    requires scaleSize > 0
    ensures rows == DoubleEach(OpenRecordsSpec(scores, scaleSize))
  {
    ghost var recs := OpenRecordsSpec(scores, scaleSize);
    rows := [];
    var i := 0;
    while i < |scores|
      invariant 0 <= i <= |scores|
      invariant rows == DoubleEach(recs[..i])
    {
      var rec := OpenRecord(scores[i], scaleSize);
      DoubleEachSnoc(recs, i);
      rows := rows + [rec];
      rows := rows + [rec];
      i := i + 1;
    }
    assert recs[..i] == recs;
  }

  /** The table as written has twice the rows, each record repeated. */
  lemma OpenRecordsAsWrittenDoubles(scores: seq<ScoreRow>, scaleSize: nat)
    requires scaleSize > 0
    ensures var rows := DoubleEach(OpenRecordsSpec(scores, scaleSize));
            |rows| == 2 * |scores| &&
            forall i :: 0 <= i < |scores| ==>
              rows[2 * i] == OpenRecord(scores[i], scaleSize) && rows[2 * i + 1] == OpenRecord(scores[i], scaleSize)
  {
    var recs := OpenRecordsSpec(scores, scaleSize);
    forall i | 0 <= i < |scores|
      ensures DoubleEach(recs)[2 * i] == recs[i] && DoubleEach(recs)[2 * i + 1] == recs[i]
    {
      DoubleEachIndex(recs, i);
    }
  }

  /** The evidently intended loop: one record per response, in order. */
  method OpenRecords(scores: seq<ScoreRow>, scaleSize: nat) returns (rows: seq<ResponseRecord>)
    requires scaleSize > 0
    ensures rows == OpenRecordsSpec(scores, scaleSize)
  {
    ghost var recs := OpenRecordsSpec(scores, scaleSize);
    rows := [];
    var i := 0;
    while i < |scores|
      invariant 0 <= i <= |scores|
      invariant rows == recs[..i]
    {
      var rec := OpenRecord(scores[i], scaleSize);
      RecordsSnoc(recs, i);
      rows := rows + [rec];
      i := i + 1;
    }
    assert recs[..i] == recs;
  }

  /** A single response yields one row, but two in the table as written. */
  lemma OpenRecordsDoubled(row: ScoreRow)
    ensures |OpenRecordsSpec([row], 1)| == 1
    ensures DoubleEach(OpenRecordsSpec([row], 1)) == [OpenRecord(row, 1), OpenRecord(row, 1)]
  {
    var recs := OpenRecordsSpec([row], 1);
    assert recs[..0] == [];
  }

  /** Every record's betP values lie in [0, 1] when the agreement probability does. */
  lemma OpenRecordBounds(row: ScoreRow, scaleSize: nat)
    requires scaleSize > 0
    requires row.response.agreement.Some? ==> 0.0 <= row.response.agreement.value <= 1.0
    ensures var r := OpenRecord(row, scaleSize);
            forall i :: 0 <= i < |r.pign.betP| ==> 0.0 <= r.pign.betP[i] <= 1.0
  {
    var theta := Theta(scaleSize);
    assert 1 in theta;
    var m := ResponseToMass(row.response, theta);
    ResponseToMassTotal(row.response, theta);
    ResponseToMassCases(row.response, theta);
    var stages := Stages(scaleSize);
    var b := BetPs(m, stages);
    assert OpenRecord(row, scaleSize).pign.betP == b;
    forall i | 0 <= i < |b| ensures 0.0 <= b[i] <= 1.0 {
      PignisticBounds(m, stages[i]);
    }
  }

  /** A closed-world per-response record: no abstention flag and no conflict column. */
  datatype ClosedRecord = ClosedRecord(model: string, tag: string, evidence: string, rubricId: string, pign: Pign)

  /** The closed-world per-response records skip abstentions. */
  function ClosedRecords(scores: seq<ScoreRow>, scaleSize: nat): (rows: seq<ClosedRecord>)
    requires scaleSize > 0
    ensures |rows| <= |scores|
  {
    if |scores| == 0 then []
    else
      var rest := ClosedRecords(scores[..|scores| - 1], scaleSize);
      var row := scores[|scores| - 1];
      match ResponseToMassClosed(row.response, Theta(scaleSize))
      case None => rest
      case Some(m) =>
        rest + [ClosedRecord(row.model, row.tag, row.evidence, row.rubricId,
                             Summarise(BetPs(m, Stages(scaleSize)), Stages(scaleSize)))]
  }

  lemma {:induction false} ClosedRecordsCount(scores: seq<ScoreRow>, scaleSize: nat)
    requires scaleSize > 0
    ensures |ClosedRecords(scores, scaleSize)| == |NonAbstained(scores)|
    decreases |scores|
  {
    if |scores| > 0 {
      ClosedRecordsCount(scores[..|scores| - 1], scaleSize);
      ResponseToMassClosedCases(scores[|scores| - 1].response, Theta(scaleSize)) by {
        assert 1 in Theta(scaleSize);
      }
    }
  }

  function NonAbstained(scores: seq<ScoreRow>): (r: seq<ScoreRow>)
    ensures forall i :: 0 <= i < |r| ==> !r[i].response.abstained
  {
    if |scores| == 0 then []
    else
      var rest := NonAbstained(scores[..|scores| - 1]);
      if scores[|scores| - 1].response.abstained then rest else rest + [scores[|scores| - 1]]
  }

  // ---------------------------------------------------------------------
  // Per-rubric combination

  /** The responses one rubric of one experiment scored. */
  datatype RubricGroup = RubricGroup(tag: string, rubricId: string, responses: seq<Response>)

  datatype RubricResult = RubricResult(tag: string, rubricId: string, nEvidence: nat, conflict: real,
                                       bel: seq<real>, pl: seq<real>, pign: Pign)

  function OpenMasses(responses: seq<Response>, theta: set<int>): (ms: seq<Mass>)
    ensures |ms| == |responses|
    ensures forall i :: 0 <= i < |responses| ==> ms[i] == ResponseToMass(responses[i], theta)
  {
    seq(|responses|, i requires 0 <= i < |responses| => ResponseToMass(responses[i], theta))
  }

  /** Open world: unnormalised fold; conflict = m(∅); the pignistic cap at 0.9999. */
  function OpenWorldResult(g: RubricGroup, scaleSize: nat): RubricResult
    requires |g.responses| > 0 && scaleSize > 0
  {
    var theta, stages := Theta(scaleSize), Stages(scaleSize);
    var combined := FoldUnnormalised(OpenMasses(g.responses, theta));
    var conflict := Get(combined, {});
    var betP := if conflict >= PIGNISTIC_CONFLICT_CAP then Zeros(scaleSize) else BetPs(combined, stages);
    RubricResult(g.tag, g.rubricId, |g.responses|, conflict,
                 Beliefs(combined, stages), Plausibilities(combined, stages, theta), Summarise(betP, stages))
  }

  /** The rubric groups with responses, in order, each with its open-world result. */
  function OpenWorldResults(groups: seq<RubricGroup>, scaleSize: nat): seq<RubricResult>
    requires scaleSize > 0
  {
    if |groups| == 0 then []
    else
      var rest := OpenWorldResults(groups[..|groups| - 1], scaleSize);
      var g := groups[|groups| - 1];
      if |g.responses| == 0 then rest else rest + [OpenWorldResult(g, scaleSize)]
  }

  /** The open-world combination cell: one result per non-empty rubric group. */
  method CombineOpenWorld(groups: seq<RubricGroup>, scaleSize: nat) returns (results: seq<RubricResult>)
    requires scaleSize > 0
    ensures results == OpenWorldResults(groups, scaleSize)
  {
    results := [];
    var i := 0;
    while i < |groups|
      invariant 0 <= i <= |groups|
      invariant results == OpenWorldResults(groups[..i], scaleSize)
    {
      assert groups[..i + 1][..i] == groups[..i];
      if |groups[i].responses| > 0 {
        results := results + [OpenWorldResult(groups[i], scaleSize)];
      }
      i := i + 1;
    }
    assert groups[..i] == groups;
  }

  /** Near-total conflict makes every betP 0.0, so the modal stage is stage 1. */
  lemma OpenWorldConflictCap(g: RubricGroup, scaleSize: nat)
    requires |g.responses| > 0 && scaleSize > 0
    requires OpenWorldResult(g, scaleSize).conflict >= PIGNISTIC_CONFLICT_CAP
    ensures forall i :: 0 <= i < scaleSize ==> OpenWorldResult(g, scaleSize).pign.betP[i] == 0.0
    ensures OpenWorldResult(g, scaleSize).pign.maxBetP == 0.0
    ensures OpenWorldResult(g, scaleSize).pign.modalStage == 1
  {
    var z := Zeros(scaleSize);
    assert OpenWorldResult(g, scaleSize).pign == Summarise(z, Stages(scaleSize));
    assert z[0] == 0.0 && z[FirstArgMax(z)] == 0.0;
  }

  /**
   * Open world, with every agreement probability in [0, 1]: the combined
   * mass is a proper mass, so the conflict and every betP lie in [0, 1],
   * and the modal stage is the first stage with the largest betP.
   */
  lemma OpenWorldBounds(g: RubricGroup, scaleSize: nat)
    requires |g.responses| > 0 && scaleSize > 0
    requires forall i :: 0 <= i < |g.responses| && g.responses[i].agreement.Some?
               ==> 0.0 <= g.responses[i].agreement.value <= 1.0
    ensures 0.0 <= OpenWorldResult(g, scaleSize).conflict <= 1.0
    ensures forall i :: 0 <= i < scaleSize ==> 0.0 <= OpenWorldResult(g, scaleSize).pign.betP[i] <= 1.0
    ensures 0.0 <= OpenWorldResult(g, scaleSize).pign.maxBetP <= 1.0
  {
    var theta, stages := Theta(scaleSize), Stages(scaleSize);
    assert 1 in theta;
    var ms := OpenMasses(g.responses, theta);
    forall i | 0 <= i < |ms| ensures Distinct(ms[i]) && NonNegative(ms[i]) && Total(ms[i]) == 1.0 {
      ResponseToMassTotal(g.responses[i], theta);
      ResponseToMassCases(g.responses[i], theta);
    }
    var combined := FoldUnnormalised(ms);
    FoldUnnormalisedProper(ms);
    SumWhereMonotone(combined, KeyIs({}), AnyKey);
    SumWhereNonNegative(combined, KeyIs({}));
    var r := OpenWorldResult(g, scaleSize);
    forall i | 0 <= i < scaleSize ensures 0.0 <= r.pign.betP[i] <= 1.0 {
      PignisticBounds(combined, stages[i]);
    }
    var k :| 0 <= k < scaleSize && r.pign.betP[k] == r.pign.maxBetP;
  }

  function ClosedMasses(responses: seq<Response>, theta: set<int>): (ms: seq<Mass>)
    ensures |ms| <= |responses|
  {
    if |responses| == 0 then []
    else
      var rest := ClosedMasses(responses[..|responses| - 1], theta);
      match ResponseToMassClosed(responses[|responses| - 1], theta)
      case None => rest
      case Some(m) => rest + [m]
  }

  /**
   * Closed world: conflict from an unnormalised fold, belief, plausibility
   * and betP from a normalised fold of the same masses.
   */
  function ClosedWorldResult(g: RubricGroup, scaleSize: nat): RubricResult
    requires |ClosedMasses(g.responses, Theta(scaleSize))| > 0 && scaleSize > 0
  {
    var theta, stages := Theta(scaleSize), Stages(scaleSize);
    var ms := ClosedMasses(g.responses, theta);
    var conflict := Get(FoldUnnormalised(ms), {});
    var combined := FoldNormalised(ms);
    RubricResult(g.tag, g.rubricId, |ms|, conflict,
                 Beliefs(combined, stages), Plausibilities(combined, stages, theta),
                 Summarise(BetPs(combined, stages), stages))
  }

  /** Groups with no non-abstaining response are skipped. */
  function ClosedWorldResults(groups: seq<RubricGroup>, scaleSize: nat): seq<RubricResult>
    requires scaleSize > 0
  {
    if |groups| == 0 then []
    else
      var rest := ClosedWorldResults(groups[..|groups| - 1], scaleSize);
      var g := groups[|groups| - 1];
      if |ClosedMasses(g.responses, Theta(scaleSize))| == 0 then rest else rest + [ClosedWorldResult(g, scaleSize)]
  }

  /** The closed-world combination cell. */
  method CombineClosedWorld(groups: seq<RubricGroup>, scaleSize: nat) returns (results: seq<RubricResult>)
    requires scaleSize > 0
    ensures results == ClosedWorldResults(groups, scaleSize)
  {
    results := [];
    var theta := Theta(scaleSize);
    var i := 0;
    while i < |groups|
      invariant 0 <= i <= |groups|
      invariant results == ClosedWorldResults(groups[..i], scaleSize)
    {
      ClosedWorldSnoc(groups, i, scaleSize);
      var masses := CollectClosedMasses(groups[i].responses, theta);
      if |masses| > 0 {
        var r := ClosedWorldResult(groups[i], scaleSize);
        results := results + [r];
      }
      i := i + 1;
    }
    assert groups[..i] == groups;
  }

  lemma ClosedWorldSnoc(groups: seq<RubricGroup>, i: nat, scaleSize: nat)
    requires scaleSize > 0 && i < |groups|
    ensures ClosedWorldResults(groups[..i + 1], scaleSize) ==
      var rest := ClosedWorldResults(groups[..i], scaleSize);
      if |ClosedMasses(groups[i].responses, Theta(scaleSize))| == 0 then rest
      else rest + [ClosedWorldResult(groups[i], scaleSize)]
  {
    assert groups[..i + 1][..i] == groups[..i];
  }

  /** The inner loop: the closed-world masses of one group's responses. */
  method CollectClosedMasses(responses: seq<Response>, theta: set<int>) returns (masses: seq<Mass>)
    ensures masses == ClosedMasses(responses, theta)
  {
    masses := [];
    var j := 0;
    while j < |responses|
      invariant 0 <= j <= |responses|
      invariant masses == ClosedMasses(responses[..j], theta)
    {
      assert responses[..j + 1][..j] == responses[..j];
      var m := ResponseToMassClosed(responses[j], theta);
      if m.Some? {
        masses := masses + [m.value];
      }
      j := j + 1;
    }
    assert responses[..j] == responses;
  }

  /** The closed-world masses are exactly the encodings of the non-abstaining responses. */
  lemma {:induction false} ClosedMassesCount(responses: seq<Response>, theta: set<int>)
    requires theta != {}
    ensures |ClosedMasses(responses, theta)| == |responses| - |AbstainedIndices(responses)|
    decreases |responses|
  {
    if |responses| > 0 {
      var n := |responses|;
      ClosedMassesCount(responses[..n - 1], theta);
      ResponseToMassClosedCases(responses[n - 1], theta);
      AbstainedSnoc(responses);
      var rest := ClosedMasses(responses[..n - 1], theta);
      assert |ClosedMasses(responses, theta)| == |rest| + (if responses[n - 1].abstained then 0 else 1);
    }
  }

  /** One more response adds its own index when it abstains, and nothing otherwise. */
  lemma AbstainedSnoc(responses: seq<Response>)
    requires |responses| > 0
    ensures var n := |responses|;
      |AbstainedIndices(responses)| ==
      |AbstainedIndices(responses[..n - 1])| + (if responses[n - 1].abstained then 1 else 0)
  {
    var n := |responses|;
    var front := AbstainedIndices(responses[..n - 1]);
    assert n - 1 !in front;
    if responses[n - 1].abstained {
      assert AbstainedIndices(responses) == front + {n - 1};
    } else {
      assert AbstainedIndices(responses) == front;
    }
  }

  function AbstainedIndices(responses: seq<Response>): set<int>
  {
    set i | 0 <= i < |responses| && responses[i].abstained
  }

  /** Every closed-world mass is proper when the agreement probabilities lie in [0, 1]. */
  lemma {:induction false} ClosedMassesProper(responses: seq<Response>, theta: set<int>)
    requires theta != {}
    requires forall i :: 0 <= i < |responses| && responses[i].agreement.Some?
               ==> 0.0 <= responses[i].agreement.value <= 1.0
    ensures AllProper(ClosedMasses(responses, theta))
    decreases |responses|
  {
    if |responses| > 0 {
      var n := |responses|;
      ClosedMassesProper(responses[..n - 1], theta);
      var r := responses[n - 1];
      ResponseToMassClosedCases(r, theta);
      if !r.abstained {
        ResponseToMassClosedTotal(r, theta);
        if Verdict(r) != theta {
          ResponseToMassCases(r, theta);
        }
      }
    }
  }

  /**
   * Closed world: n_evidence counts the non-abstaining responses, and with
   * agreement probabilities in [0, 1] every betP lies in [0, 1].
   */
  lemma ClosedWorldBounds(g: RubricGroup, scaleSize: nat)
    requires |ClosedMasses(g.responses, Theta(scaleSize))| > 0 && scaleSize > 0
    requires forall i :: 0 <= i < |g.responses| && g.responses[i].agreement.Some?
               ==> 0.0 <= g.responses[i].agreement.value <= 1.0
    ensures ClosedWorldResult(g, scaleSize).nEvidence == |g.responses| - |AbstainedIndices(g.responses)|
    ensures forall i :: 0 <= i < scaleSize ==> 0.0 <= ClosedWorldResult(g, scaleSize).pign.betP[i] <= 1.0
  {
    var theta, stages := Theta(scaleSize), Stages(scaleSize);
    assert 1 in theta;
    var ms := ClosedMasses(g.responses, theta);
    ClosedMassesCount(g.responses, theta);
    ClosedMassesProper(g.responses, theta);
    var combined := FoldNormalised(ms);
    FoldNormalisedProper(ms);
    var r := ClosedWorldResult(g, scaleSize);
    forall i | 0 <= i < scaleSize ensures 0.0 <= r.pign.betP[i] <= 1.0 {
      PignisticBounds(combined, stages[i]);
    }
  }
}
