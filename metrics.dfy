/**
 * The analysis package's summary metrics: the entrenchment index, the swap
 * sensitivity of expert-agreement probabilities, and the score histogram
 * of decoded verdicts.  Doubles are exact reals; a NaN result is
 * `NonFinite`, and a Python exception is a `Failure`.
 */
module Metrics {
  import opened Wrappers
  import opened PilotAggregation

  // ---------------------------------------------------------------------
  // entrenchment_index

  /** Polarization times mean expert agreement. */
  function EntrenchmentIndex(polarization: real, meanExpertProb: real): (r: real)
    ensures polarization == 0.0 || meanExpertProb == 0.0 ==> r == 0.0
  {
    polarization * meanExpertProb
  }

  /** Both factors in [0, 1] keep the index in [0, 1], below each factor. */
  lemma EntrenchmentBounds(polarization: real, meanExpertProb: real)
    requires 0.0 <= polarization <= 1.0 && 0.0 <= meanExpertProb <= 1.0
    ensures 0.0 <= EntrenchmentIndex(polarization, meanExpertProb)
    ensures EntrenchmentIndex(polarization, meanExpertProb) <= polarization
    ensures EntrenchmentIndex(polarization, meanExpertProb) <= meanExpertProb
  {
    var p, m := polarization, meanExpertProb;
    assert p * m <= p by {
      MulMonotone(m, 1.0, p);
      assert m * p == p * m && 1.0 * p == p;
    }
    assert p * m <= m by {
      MulMonotone(p, 1.0, m);
      assert 1.0 * m == m;
    }
  }

  /** The index is high only when both the disagreement and the confidence are. */
  lemma EntrenchmentZero(polarization: real, meanExpertProb: real)
    ensures EntrenchmentIndex(polarization, meanExpertProb) == 0.0
        <==> polarization == 0.0 || meanExpertProb == 0.0
  {
  }

  // ---------------------------------------------------------------------
  // swap_sensitivity

  function Abs(x: real): (r: real)
    ensures r >= 0.0 && (r == x || r == -x)
  {
    if x < 0.0 then -x else x
  }

  /**
   * numpy's elementwise |a - b|: equal lengths pair up, a length-1 operand
   * is broadcast against the other, anything else cannot be broadcast.
   */
  function AbsDiffs(a: seq<real>, b: seq<real>): (r: Result<seq<real>>)
    ensures r.Success? <==> |a| == |b| || |a| == 1 || |b| == 1
    ensures r.Success? ==> |r.value| == (if |a| == 1 then |b| else |a|)
    ensures r.Success? ==> forall i :: 0 <= i < |r.value| ==>
      r.value[i] == Abs((if |a| == 1 then a[0] else a[i]) - (if |b| == 1 then b[0] else b[i]))
  {
    if |a| == |b| then Success(seq(|a|, i requires 0 <= i < |a| => Abs(a[i] - b[i])))
    else if |a| == 1 then Success(seq(|b|, i requires 0 <= i < |b| => Abs(a[0] - b[i])))
    else if |b| == 1 then Success(seq(|a|, i requires 0 <= i < |a| => Abs(a[i] - b[0])))
    else Failure("operands could not be broadcast together")
  }

  /** np.mean: NaN on an empty array. */
  function Mean(xs: seq<real>): (r: Float)
    ensures r.NonFinite? <==> |xs| == 0
  {
    if |xs| == 0 then NonFinite else Finite(Sum(xs) / (|xs| as real))
  }

  function SwapSensitivity(originalProbs: seq<real>, swappedProbs: seq<real>): (r: Result<Float>)
    ensures r.Success? <==> AbsDiffs(originalProbs, swappedProbs).Success?
  {
    var d := AbsDiffs(originalProbs, swappedProbs);
    if d.Failure? then Failure(d.error) else Success(Mean(d.value))
  }

  lemma {:induction false} SumPointwiseEqual(s: seq<real>, t: seq<real>)
    requires |s| == |t| && forall i :: 0 <= i < |s| ==> s[i] == t[i]
    ensures Sum(s) == Sum(t)
  {
    assert s == t;
  }

  /** Swapping the two arrays does not change the sensitivity. */
  lemma SwapSensitivitySymmetric(a: seq<real>, b: seq<real>)
    ensures SwapSensitivity(a, b) == SwapSensitivity(b, a)
  {
    var d, e := AbsDiffs(a, b), AbsDiffs(b, a);
    if d.Success? {
      assert |d.value| == |e.value|;
      forall i | 0 <= i < |d.value| ensures d.value[i] == e.value[i] {
      }
      SumPointwiseEqual(d.value, e.value);
    }
  }

  lemma {:induction false} SumZeros(s: seq<real>)
    requires forall i :: 0 <= i < |s| ==> s[i] == 0.0
    ensures Sum(s) == 0.0
  {
    if |s| > 0 {
      SumZeros(s[1..]);
    }
  }

  /** Probabilities that do not move under the swap give sensitivity 0. */
  lemma SwapSensitivityUnchanged(a: seq<real>)
    requires |a| > 0
    ensures SwapSensitivity(a, a) == Success(Finite(0.0))
  {
    SumZeros(AbsDiffs(a, a).value);
  }

  /** For probabilities in [0, 1] the sensitivity lies in [0, 1]. */
  lemma SwapSensitivityBounds(a: seq<real>, b: seq<real>)
    requires forall i :: 0 <= i < |a| ==> 0.0 <= a[i] <= 1.0
    requires forall i :: 0 <= i < |b| ==> 0.0 <= b[i] <= 1.0
    requires SwapSensitivity(a, b).Success? && SwapSensitivity(a, b).value.Finite?
    ensures 0.0 <= SwapSensitivity(a, b).value.v <= 1.0
  {
    var d := AbsDiffs(a, b).value;
    SumNonNegative(d);
    SumUpperUnit(d);
    DivUpper(Sum(d), |d| as real, 1.0);
  }

  lemma {:induction false} SumUpperUnit(s: seq<real>)
    requires forall i :: 0 <= i < |s| ==> s[i] <= 1.0
    ensures Sum(s) <= |s| as real
  {
    if |s| > 0 {
      SumUpperUnit(s[1..]);
    }
  }

  // ---------------------------------------------------------------------
  // score_histogram

  /** One score adds `w` to its bin when it lies in 1..|h|. */
  function AddScore(h: seq<real>, s: int, w: real): (r: seq<real>)
    ensures |r| == |h|
  {
    if 1 <= s <= |h| then h[s - 1 := h[s - 1] + w] else h
  }

  /** A sample's scores, added one after the other. */
  function AddSample(h: seq<real>, scores: seq<int>, w: real): (r: seq<real>)
    ensures |r| == |h|
  {
    if |scores| == 0 then h
    else AddScore(AddSample(h, scores[..|scores| - 1], w), scores[|scores| - 1], w)
  }

  function Zeros(n: nat): (r: seq<real>)
    ensures |r| == n && forall b :: 0 <= b < n ==> r[b] == 0.0
  {
    seq(n, b => 0.0)
  }

  predicate AllSampled(decodedScores: seq<seq<int>>)
  {
    forall k :: 0 <= k < |decodedScores| ==> |decodedScores[k]| > 0
  }

  /** The histogram after all samples, each weighted 1/|scores|. */
  function Histogram(decodedScores: seq<seq<int>>, scaleSize: nat): (r: seq<real>)
    requires AllSampled(decodedScores)
    ensures |r| == scaleSize
  {
    if |decodedScores| == 0 then Zeros(scaleSize)
    else
      var last := decodedScores[|decodedScores| - 1];
      AddSample(Histogram(decodedScores[..|decodedScores| - 1], scaleSize), last, 1.0 / (|last| as real))
  }

  /** score_histogram: np.zeros refuses a negative size; an empty sample divides by zero. */
  function ScoreHistogramOf(decodedScores: seq<seq<int>>, scaleSize: int): (r: Result<seq<real>>)
    ensures r.Success? <==> scaleSize >= 0 && AllSampled(decodedScores)
    ensures r.Success? ==> |r.value| == scaleSize
  {
    if scaleSize < 0 then Failure("negative dimensions are not allowed")
    else if !AllSampled(decodedScores) then Failure("float division by zero")
    else Success(Histogram(decodedScores, scaleSize))
  }

  method ScoreHistogram(decodedScores: seq<seq<int>>, scaleSize: int) returns (r: Result<array<real>>)
    ensures r.Success? <==> ScoreHistogramOf(decodedScores, scaleSize).Success?
    ensures r.Failure? ==> r.error == ScoreHistogramOf(decodedScores, scaleSize).error
    ensures r.Success? ==> fresh(r.value) && r.value[..] == ScoreHistogramOf(decodedScores, scaleSize).value
  {
    if scaleSize < 0 {
      return Failure("negative dimensions are not allowed");
    }
    var hist := new real[scaleSize](b => 0.0);
    assert hist[..] == Zeros(scaleSize);
    var i := 0;
    while i < |decodedScores|
      invariant 0 <= i <= |decodedScores|
      invariant AllSampled(decodedScores[..i])
      invariant hist[..] == Histogram(decodedScores[..i], scaleSize)
    {
      var scores := decodedScores[i];
      if |scores| == 0 {
        return Failure("float division by zero");
      }
      var weight := 1.0 / (|scores| as real);
      var j := 0;
      while j < |scores|
        invariant 0 <= j <= |scores|
        invariant hist[..] == AddSample(Histogram(decodedScores[..i], scaleSize), scores[..j], weight)
      {
        var s := scores[j];
        assert scores[..j + 1][..j] == scores[..j];
        if 1 <= s <= scaleSize {
          hist[s - 1] := hist[s - 1] + weight;
        }
        j := j + 1;
      }
      assert scores[..j] == scores;
      assert decodedScores[..i + 1][..i] == decodedScores[..i];
      i := i + 1;
    }
    assert decodedScores[..i] == decodedScores;
    return Success(hist);
  }

  // Properties of the histogram

  /** How many of the scores lie in 1..n. */
  function InRange(scores: seq<int>, n: nat): (c: nat)
    ensures c <= |scores|
  {
    if |scores| == 0 then 0
    else InRange(scores[..|scores| - 1], n) + (if 1 <= scores[|scores| - 1] <= n then 1 else 0)
  }

  lemma SumUpdate(h: seq<real>, b: nat, v: real)
    requires b < |h|
    ensures Sum(h[b := v]) == Sum(h) - h[b] + v
  {
    if b == 0 {
      assert h[b := v][1..] == h[1..];
    } else {
      assert h[b := v][1..] == h[1..][b - 1 := v];
      SumUpdate(h[1..], b - 1, v);
    }
  }

  lemma AddScoreTotal(g: seq<real>, s: int, w: real)
    ensures Sum(AddScore(g, s, w)) == Sum(g) + (if 1 <= s <= |g| then w else 0.0)
  {
    if 1 <= s <= |g| {
      SumUpdate(g, s - 1, g[s - 1] + w);
    }
  }

  /** The weight w, once for each score that lies in 1..n. */
  function InRangeWeight(scores: seq<int>, n: nat, w: real): real
  {
    if |scores| == 0 then 0.0
    else InRangeWeight(scores[..|scores| - 1], n, w) + (if 1 <= scores[|scores| - 1] <= n then w else 0.0)
  }

  lemma MulSucc(w: real, c: nat)
    ensures w * ((c + 1) as real) == w * (c as real) + w
  {
  }

  lemma {:induction false} InRangeWeightProduct(scores: seq<int>, n: nat, w: real)
    ensures InRangeWeight(scores, n, w) == w * (InRange(scores, n) as real)
  {
    if |scores| > 0 {
      InRangeWeightProduct(scores[..|scores| - 1], n, w);
      MulSucc(w, InRange(scores[..|scores| - 1], n));
    }
  }

  /** Each sample adds w for every one of its scores that is in range. */
  lemma {:induction false} AddSampleTotal(h: seq<real>, scores: seq<int>, w: real)
    ensures Sum(AddSample(h, scores, w)) == Sum(h) + InRangeWeight(scores, |h|, w)
  {
    if |scores| > 0 {
      var init := scores[..|scores| - 1];
      AddSampleTotal(h, init, w);
      AddScoreTotal(AddSample(h, init, w), scores[|scores| - 1], w);
    }
  }

  /** A bin receives the sample's weight once per score equal to its stage. */
  lemma {:induction false} AddSampleBin(h: seq<real>, scores: seq<int>, w: real, b: nat)
    requires b < |h|
    ensures AddSample(h, scores, w)[b] == h[b] + w * (multiset(scores)[b + 1] as real)
  {
    if |scores| > 0 {
      var init := scores[..|scores| - 1];
      var s := scores[|scores| - 1];
      var g := AddSample(h, init, w);
      var c := multiset(init)[b + 1];
      AddSampleBin(h, init, w, b);
      SnocCount(scores, init, s, b + 1);
      AddScoreBin(g, s, w, b);
      if s == b + 1 {
        MulSucc(w, c);
      }
    }
  }

  /** Appending s adds one occurrence of s and leaves every other count. */
  lemma SnocCount(scores: seq<int>, init: seq<int>, s: int, x: int)
    requires |scores| > 0 && init == scores[..|scores| - 1] && s == scores[|scores| - 1]
    ensures multiset(scores)[x] == multiset(init)[x] + (if s == x then 1 else 0)
  {
    assert scores == init + [s];
    assert multiset(scores) == multiset(init) + multiset{s};
  }

  /** A score adds w to its own bin only. */
  lemma AddScoreBin(g: seq<real>, s: int, w: real, b: nat)
    requires b < |g|
    ensures AddScore(g, s, w)[b] == g[b] + (if s == b + 1 then w else 0.0)
  {
  }

  lemma {:induction false} InRangeAll(scores: seq<int>, n: nat)
    ensures InRange(scores, n) == |scores| <==> forall j :: 0 <= j < |scores| ==> 1 <= scores[j] <= n
  {
    if |scores| > 0 {
      var init := scores[..|scores| - 1];
      InRangeAll(init, n);
      assert forall j :: 0 <= j < |init| ==> init[j] == scores[j];
    }
  }

  /** The weight a sample puts into the histogram. */
  function Share(scores: seq<int>, n: nat): real
    requires |scores| > 0
  {
    InRangeWeight(scores, n, 1.0 / (|scores| as real))
  }

  lemma ShareBounds(scores: seq<int>, n: nat)
    requires |scores| > 0
    ensures Share(scores, n) <= 1.0
    ensures Share(scores, n) == 1.0 <==> InRange(scores, n) == |scores|
  {
    var c, m := InRange(scores, n) as real, |scores| as real;
    InRangeWeightProduct(scores, n, 1.0 / m);
    assert (1.0 / m) * c == c / m;
  }

  predicate AllInRange(decodedScores: seq<seq<int>>, n: nat)
  {
    forall k, j :: 0 <= k < |decodedScores| && 0 <= j < |decodedScores[k]| ==> 1 <= decodedScores[k][j] <= n
  }

  lemma HistogramStep(decodedScores: seq<seq<int>>, scaleSize: nat)
    requires AllSampled(decodedScores) && |decodedScores| > 0
    ensures AllSampled(decodedScores[..|decodedScores| - 1])
    ensures Sum(Histogram(decodedScores, scaleSize))
         == Sum(Histogram(decodedScores[..|decodedScores| - 1], scaleSize))
          + Share(decodedScores[|decodedScores| - 1], scaleSize)
  {
    var init := decodedScores[..|decodedScores| - 1];
    var last := decodedScores[|decodedScores| - 1];
    assert AllSampled(init);
    AddSampleTotal(Histogram(init, scaleSize), last, 1.0 / (|last| as real));
  }

  lemma AllInRangeSplit(decodedScores: seq<seq<int>>, n: nat)
    requires |decodedScores| > 0
    ensures AllInRange(decodedScores, n) <==>
      AllInRange(decodedScores[..|decodedScores| - 1], n) &&
      InRange(decodedScores[|decodedScores| - 1], n) == |decodedScores[|decodedScores| - 1]|
  {
    var init := decodedScores[..|decodedScores| - 1];
    var last := decodedScores[|decodedScores| - 1];
    InRangeAll(last, n);
    assert forall k :: 0 <= k < |init| ==> init[k] == decodedScores[k];
    if AllInRange(init, n) && InRange(last, n) == |last| {
      forall k, j | 0 <= k < |decodedScores| && 0 <= j < |decodedScores[k]|
        ensures 1 <= decodedScores[k][j] <= n
      {
        if k < |init| {
          assert decodedScores[k] == init[k];
        }
      }
    }
  }

  /** Every sample carries total weight at most 1, so the histogram holds at most one unit per sample. */
  lemma {:induction false} HistogramTotalBound(decodedScores: seq<seq<int>>, scaleSize: nat)
    requires AllSampled(decodedScores)
    ensures Sum(Histogram(decodedScores, scaleSize)) <= |decodedScores| as real
  {
    if |decodedScores| == 0 {
      SumZeros(Zeros(scaleSize));
    } else {
      HistogramStep(decodedScores, scaleSize);
      HistogramTotalBound(decodedScores[..|decodedScores| - 1], scaleSize);
      ShareBounds(decodedScores[|decodedScores| - 1], scaleSize);
    }
  }

  /** The histogram holds exactly one unit per sample iff no score is out of range. */
  lemma {:induction false} HistogramTotalExact(decodedScores: seq<seq<int>>, scaleSize: nat)
    requires AllSampled(decodedScores)
    ensures Sum(Histogram(decodedScores, scaleSize)) == |decodedScores| as real
        <==> AllInRange(decodedScores, scaleSize)
  {
    if |decodedScores| == 0 {
      SumZeros(Zeros(scaleSize));
    } else {
      HistogramStep(decodedScores, scaleSize);
      HistogramTotalBound(decodedScores[..|decodedScores| - 1], scaleSize);
      HistogramTotalExact(decodedScores[..|decodedScores| - 1], scaleSize);
      ShareBounds(decodedScores[|decodedScores| - 1], scaleSize);
      AllInRangeSplit(decodedScores, scaleSize);
    }
  }

  /** Every bin is non-negative. */
  lemma {:induction false} HistogramNonNegative(decodedScores: seq<seq<int>>, scaleSize: nat, b: nat)
    requires AllSampled(decodedScores) && b < scaleSize
    ensures Histogram(decodedScores, scaleSize)[b] >= 0.0
  {
    if |decodedScores| > 0 {
      var init := decodedScores[..|decodedScores| - 1];
      var last := decodedScores[|decodedScores| - 1];
      assert AllSampled(init);
      HistogramNonNegative(init, scaleSize, b);
      AddSampleBin(Histogram(init, scaleSize), last, 1.0 / (|last| as real), b);
    }
  }

  /** The default scale of 4 with verdicts [2] and [1, 2]: bins [0.5, 1.5, 0, 0]. */
  lemma HistogramExample()
    ensures ScoreHistogramOf([[2], [1, 2]], 4) == Success([0.5, 1.5, 0.0, 0.0])
  {
    var ds: seq<seq<int>> := [[2], [1, 2]];
    assert ds[..1] == [[2]] && |ds[..1][..0]| == 0;
    assert |[2][..0]| == 0;
    assert AddSample(Zeros(4), [2][..0], 1.0) == Zeros(4);
    assert AddSample(Zeros(4), [2], 1.0) == [0.0, 1.0, 0.0, 0.0];
    assert Histogram(ds[..1][..0], 4) == Zeros(4);
    assert Histogram(ds[..1], 4) == [0.0, 1.0, 0.0, 0.0];
    assert AddSample([0.0, 1.0, 0.0, 0.0], [1][..0], 0.5) == [0.0, 1.0, 0.0, 0.0];
    assert [1, 2][..1] == [1] && |[1][..0]| == 0;
    assert AddSample([0.0, 1.0, 0.0, 0.0], [1], 0.5) == [0.5, 1.0, 0.0, 0.0];
    assert AddSample([0.0, 1.0, 0.0, 0.0], [1, 2], 0.5) == [0.5, 1.5, 0.0, 0.0];
    assert Histogram(ds, 4) == [0.5, 1.5, 0.0, 0.0];
  }

  lemma EmptySampleFails()
    ensures ScoreHistogramOf([[1], []], 4) == Failure("float division by zero")
  {
    assert |[[1], []][1]| == 0;
  }
}
