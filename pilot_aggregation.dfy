/**
 * The notebook's final aggregation: per (model, tag, evidence) group and per
 * stage, a weighted mean and weighted 10%/90% quantiles of the rubric-level
 * betP values, over the rubrics whose combined conflict is below 0.9,
 * weighted by the rubric critic's mean quality score.
 */
module PilotAggregation {
  import opened Wrappers

  const CONFLICT_THRESHOLD_FINAL: real := 0.9

  /** A double as numpy sees it: a finite value, or NaN / an infinity. */
  datatype Float = Finite(v: real) | NonFinite

  // ---------------------------------------------------------------------
  // Sums

  function Sum(s: seq<real>): real
  {
    if |s| == 0 then 0.0 else s[0] + Sum(s[1..])
  }

  lemma {:induction false} SumNonNegative(s: seq<real>)
    requires forall i :: 0 <= i < |s| ==> 0.0 <= s[i]
    ensures 0.0 <= Sum(s)
  {
    if |s| > 0 {
      SumNonNegative(s[1..]);
    }
  }

  lemma {:induction false} SumAppend(s: seq<real>, x: real)
    ensures Sum(s + [x]) == Sum(s) + x
  {
    if |s| == 0 {
      assert s + [x] == [x];
      assert [x][1..] == [];
    } else {
      assert (s + [x])[1..] == s[1..] + [x];
      SumAppend(s[1..], x);
    }
  }

  function Ones(n: nat): (r: seq<real>)
    ensures |r| == n && forall i :: 0 <= i < n ==> r[i] == 1.0
  {
    seq(n, i => 1.0)
  }

  lemma {:induction false} SumOnes(n: nat)
    ensures Sum(Ones(n)) == n as real
  {
    if n > 0 {
      assert Ones(n)[1..] == Ones(n - 1);
      SumOnes(n - 1);
    }
  }

  /** `sum(v * w)`. */
  function Dot(v: seq<real>, w: seq<real>): real
    requires |v| == |w|
  {
    if |v| == 0 then 0.0 else v[0] * w[0] + Dot(v[1..], w[1..])
  }

  /** With non-negative weights the weighted sum is at least lo times the weight sum. */
  lemma {:induction false} DotLower(v: seq<real>, w: seq<real>, lo: real)
    requires |v| == |w|
    requires forall i :: 0 <= i < |w| ==> 0.0 <= w[i]
    requires forall i :: 0 <= i < |v| ==> lo <= v[i]
    ensures lo * Sum(w) <= Dot(v, w)
  {
    if |v| > 0 {
      DotLower(v[1..], w[1..], lo);
      StepBound(lo, v[0], w[0], Dot(v[1..], w[1..]), Sum(w[1..]));
    }
  }

  /** With non-negative weights the weighted sum is at most hi times the weight sum. */
  lemma {:induction false} DotUpper(v: seq<real>, w: seq<real>, hi: real)
    requires |v| == |w|
    requires forall i :: 0 <= i < |w| ==> 0.0 <= w[i]
    requires forall i :: 0 <= i < |v| ==> v[i] <= hi
    ensures Dot(v, w) <= hi * Sum(w)
  {
    if |v| > 0 {
      DotUpper(v[1..], w[1..], hi);
      StepBound(-hi, -v[0], w[0], -Dot(v[1..], w[1..]), Sum(w[1..]));
    }
  }

  lemma StepBound(lo: real, a: real, b: real, d: real, t: real)
    requires lo <= a && 0.0 <= b && lo * t <= d
    ensures lo * (b + t) <= a * b + d
  {
    MulMonotone(lo, a, b);
  }

  lemma MulMonotone(a: real, b: real, c: real)
    requires a <= b && 0.0 <= c
    ensures a * c <= b * c
  {
    assert (b - a) * c >= 0.0;
  }

  // ---------------------------------------------------------------------
  // np.average

  /** `np.average(values, weights=weights)`; numpy raises when the weights sum to zero. */
  function WeightedMean(values: seq<real>, weights: seq<real>): real
    requires |values| == |weights| && Sum(weights) != 0.0
  {
    Dot(values, weights) / Sum(weights)
  }

  /** A weighted mean with non-negative weights lies within the values' bounds. */
  lemma WeightedMeanBounds(values: seq<real>, weights: seq<real>, lo: real, hi: real)
    requires |values| == |weights| && Sum(weights) > 0.0
    requires forall i :: 0 <= i < |weights| ==> 0.0 <= weights[i]
    requires forall i :: 0 <= i < |values| ==> lo <= values[i] <= hi
    ensures lo <= WeightedMean(values, weights) <= hi
  {
    DotLower(values, weights, lo);
    DotUpper(values, weights, hi);
    DivLower(Dot(values, weights), Sum(weights), lo);
    DivUpper(Dot(values, weights), Sum(weights), hi);
  }

  lemma MulStrict(a: real, b: real, c: real)
    requires a < b && 0.0 < c
    ensures a * c < b * c
  {
    assert 0.0 < (b - a) * c;
  }

  lemma DivLower(d: real, s: real, lo: real)
    requires 0.0 < s && lo * s <= d
    ensures lo <= d / s
  {
    assert d / s * s == d;
    if d / s < lo {
      MulStrict(d / s, lo, s);
    }
  }

  lemma DivUpper(d: real, s: real, hi: real)
    requires 0.0 < s && d <= hi * s
    ensures d / s <= hi
  {
    assert d / s * s == d;
    if d / s > hi {
      MulStrict(hi, d / s, s);
    }
  }

  // ---------------------------------------------------------------------
  // weighted_quantile

  /** The (value, weight) pairs where both are finite, in order. */
  function Retained(values: seq<Float>, weights: seq<Float>): (kept: seq<(real, real)>)
    requires |values| == |weights|
    ensures |kept| <= |values|
  {
    if |values| == 0 then []
    else
      var rest := Retained(values[1..], weights[1..]);
      if values[0].Finite? && weights[0].Finite? then [(values[0].v, weights[0].v)] + rest else rest
  }

  predicate BothFinite(values: seq<Float>, weights: seq<Float>, i: int)
    requires |values| == |weights| && 0 <= i < |values|
  {
    values[i].Finite? && weights[i].Finite?
  }

  predicate ValuesWithin(s: seq<(real, real)>, lo: real, hi: real)
  {
    forall k :: 0 <= k < |s| ==> lo <= s[k].0 <= hi
  }

  /** Something is retained exactly when some position has both a finite value and a finite weight. */
  lemma {:induction false} RetainedNonEmpty(values: seq<Float>, weights: seq<Float>)
    requires |values| == |weights|
    ensures |Retained(values, weights)| > 0 <==> exists i :: 0 <= i < |values| && BothFinite(values, weights, i)
  {
    if |values| > 0 {
      RetainedNonEmpty(values[1..], weights[1..]);
      if BothFinite(values, weights, 0) {
        assert |Retained(values, weights)| > 0;
      } else {
        assert Retained(values, weights) == Retained(values[1..], weights[1..]);
        if |Retained(values, weights)| > 0 {
          var j :| 0 <= j < |values| - 1 && BothFinite(values[1..], weights[1..], j);
          assert BothFinite(values, weights, j + 1);
        }
        if exists i :: 0 <= i < |values| && BothFinite(values, weights, i) {
          var i :| 0 <= i < |values| && BothFinite(values, weights, i);
          assert BothFinite(values[1..], weights[1..], i - 1);
        }
      }
    }
  }

  /** The retained values come from finite positions, so they obey the same bounds. */
  lemma {:induction false} RetainedWithin(values: seq<Float>, weights: seq<Float>, lo: real, hi: real)
    requires |values| == |weights|
    requires forall i :: 0 <= i < |values| && BothFinite(values, weights, i) ==> lo <= values[i].v <= hi
    ensures ValuesWithin(Retained(values, weights), lo, hi)
  {
    if |values| > 0 {
      assert forall i :: 0 <= i < |values| - 1 && BothFinite(values[1..], weights[1..], i) ==>
               BothFinite(values, weights, i + 1);
      RetainedWithin(values[1..], weights[1..], lo, hi);
    }
  }

  /** With every value and weight finite, every pair is retained. */
  lemma {:induction false} RetainedAllFinite(values: seq<Float>, weights: seq<Float>)
    requires |values| == |weights|
    requires forall i :: 0 <= i < |values| ==> BothFinite(values, weights, i)
    ensures |Retained(values, weights)| == |values|
  {
    if |values| > 0 {
      assert forall i :: 0 <= i < |values| - 1 ==> BothFinite(values[1..], weights[1..], i) by {
        forall i | 0 <= i < |values| - 1 ensures BothFinite(values[1..], weights[1..], i) {
          assert BothFinite(values, weights, i + 1);
        }
      }
      RetainedAllFinite(values[1..], weights[1..]);
      assert BothFinite(values, weights, 0);
    }
  }

  predicate SortedByValue(s: seq<(real, real)>)
  {
    forall i, j :: 0 <= i < j < |s| ==> s[i].0 <= s[j].0
  }

  function Insert(p: (real, real), s: seq<(real, real)>): (r: seq<(real, real)>)
    ensures |r| == |s| + 1
  {
    if |s| == 0 then [p]
    else if p.0 <= s[0].0 then [p] + s
    else [s[0]] + Insert(p, s[1..])
  }

  /** The pairs ordered by value, as `values[np.argsort(values)]` with the weights alongside. */
  function SortByValue(s: seq<(real, real)>): (r: seq<(real, real)>)
    ensures |r| == |s|
  {
    if |s| == 0 then [] else Insert(s[0], SortByValue(s[1..]))
  }

  lemma {:induction false} InsertSorted(p: (real, real), s: seq<(real, real)>)
    requires SortedByValue(s)
    ensures SortedByValue(Insert(p, s))
    ensures Insert(p, s)[0] == p || (|s| > 0 && Insert(p, s)[0] == s[0])
  {
    if |s| > 0 && p.0 > s[0].0 {
      InsertSorted(p, s[1..]);
    }
  }

  lemma {:induction false} InsertPermutes(p: (real, real), s: seq<(real, real)>)
    ensures multiset(Insert(p, s)) == multiset(s) + multiset{p}
  {
    if |s| > 0 && p.0 > s[0].0 {
      InsertPermutes(p, s[1..]);
      assert s == [s[0]] + s[1..];
    }
  }

  /** The sort orders the pairs and is a permutation of them. */
  lemma {:induction false} SortByValueCorrect(s: seq<(real, real)>)
    ensures SortedByValue(SortByValue(s))
    ensures multiset(SortByValue(s)) == multiset(s)
  {
    if |s| > 0 {
      SortByValueCorrect(s[1..]);
      InsertSorted(s[0], SortByValue(s[1..]));
      InsertPermutes(s[0], SortByValue(s[1..]));
      assert s == [s[0]] + s[1..];
    }
  }

  lemma {:induction false} InsertWithin(p: (real, real), s: seq<(real, real)>, lo: real, hi: real)
    requires ValuesWithin(s, lo, hi) && lo <= p.0 <= hi
    ensures ValuesWithin(Insert(p, s), lo, hi)
  {
    if |s| > 0 && p.0 > s[0].0 {
      InsertWithin(p, s[1..], lo, hi);
    }
  }

  lemma {:induction false} SortWithin(s: seq<(real, real)>, lo: real, hi: real)
    requires ValuesWithin(s, lo, hi)
    ensures ValuesWithin(SortByValue(s), lo, hi)
  {
    if |s| > 0 {
      SortWithin(s[1..], lo, hi);
      InsertWithin(s[0], SortByValue(s[1..]), lo, hi);
    }
  }

  function Values(s: seq<(real, real)>): (r: seq<real>)
    ensures |r| == |s| && forall i :: 0 <= i < |s| ==> r[i] == s[i].0
  {
    seq(|s|, i requires 0 <= i < |s| => s[i].0)
  }

  /** The total weight of a sequence of pairs. */
  function WeightSum(s: seq<(real, real)>): real
  {
    if |s| == 0 then 0.0 else s[0].1 + WeightSum(s[1..])
  }

  lemma {:induction false} InsertWeight(p: (real, real), s: seq<(real, real)>)
    ensures WeightSum(Insert(p, s)) == p.1 + WeightSum(s)
  {
    if |s| == 0 {
      assert Insert(p, s)[1..] == [];
    } else if p.0 <= s[0].0 {
      assert Insert(p, s)[1..] == s;
    } else {
      assert Insert(p, s)[1..] == Insert(p, s[1..]);
      InsertWeight(p, s[1..]);
    }
  }

  /** Sorting does not change the total weight, so the cumulative curve ends at it. */
  lemma {:induction false} SortKeepsWeight(s: seq<(real, real)>)
    ensures WeightSum(SortByValue(s)) == WeightSum(s)
  {
    if |s| > 0 {
      SortKeepsWeight(s[1..]);
      InsertWeight(s[0], SortByValue(s[1..]));
    }
  }

  /** `np.cumsum(weights) / cumsum[-1]`. */
  function Cdf(s: seq<(real, real)>): (cdf: seq<real>)
    requires WeightSum(s) != 0.0
    ensures |cdf| == |s|
  {
    seq(|s|, i requires 0 <= i < |s| => WeightSum(s[..i + 1]) / WeightSum(s))
  }

  /** The last index whose abscissa is at most x, or -1. */
  function LastAtMost(xp: seq<real>, x: real): (r: int)
    ensures -1 <= r < |xp|
    ensures r >= 0 ==> xp[r] <= x
    ensures forall k :: r < k < |xp| ==> x < xp[k]
  {
    if |xp| == 0 then -1
    else if xp[|xp| - 1] <= x then |xp| - 1
    else LastAtMost(xp[..|xp| - 1], x)
  }

  /**
   * `np.interp(x, xp, fp)`: the end values outside the curve, otherwise the
   * straight line between the last point at or below x and the next one.
   */
  function Interp(x: real, xp: seq<real>, fp: seq<real>): real
    requires |xp| == |fp| > 0
  {
    var n := |xp|;
    if x < xp[0] then fp[0]
    else if x >= xp[n - 1] then fp[n - 1]
    else
      var j := LastAtMost(xp, x);
      if x == xp[j] then fp[j]
      else Segment(x, xp[j], xp[j + 1], fp[j], fp[j + 1])
  }

  lemma ScaleNonNegative(t: real, d: real)
    requires 0.0 <= d && 0.0 <= t
    ensures 0.0 <= t * d
  {
  }

  lemma ScaleAtMost(t: real, d: real)
    requires 0.0 <= d && 0.0 <= t && t <= 1.0
    ensures t * d <= d
  {
    assert d - t * d == (1.0 - t) * d;
  }

  lemma LerpAtMost(a: real, b: real, t: real)
    requires a <= b && 0.0 <= t && t <= 1.0
    ensures a + t * (b - a) <= b
  {
    ScaleAtMost(t, b - a);
  }

  /** A point on the segment from a to b lies within any bounds of both ends. */
  lemma Between(a: real, b: real, t: real, lo: real, hi: real)
    requires lo <= a && a <= hi && lo <= b && b <= hi && 0.0 <= t && t <= 1.0
    ensures lo <= a + t * (b - a)
    ensures a + t * (b - a) <= hi
  {
    if a <= b {
      LerpAtMost(a, b, t);
      ScaleNonNegative(t, b - a);
    } else {
      LerpAtMost(b, a, 1.0 - t);
      assert a + t * (b - a) == b + (1.0 - t) * (a - b);
      ScaleNonNegative(1.0 - t, a - b);
    }
  }

  lemma UnitFraction(u: real, v: real)
    requires 0.0 <= u <= v && 0.0 < v
    ensures 0.0 <= u / v <= 1.0
  {
  }

  lemma SlopeTimes(dy: real, dx: real, d: real, t: real)
    requires dx != 0.0 && t == d / dx
    ensures dy / dx * d == t * dy
  {
  }

  /** Linear interpolation never leaves the range of the ordinates. */
  lemma InterpWithin(x: real, xp: seq<real>, fp: seq<real>, lo: real, hi: real)
    requires |xp| == |fp| > 0
    requires forall i :: 0 <= i < |fp| ==> lo <= fp[i] <= hi
    ensures lo <= Interp(x, xp, fp) <= hi
  {
    var n := |xp|;
    if xp[0] <= x < xp[n - 1] {
      var j := LastAtMost(xp, x);
      if x != xp[j] {
        assert x < xp[j + 1];
        SegmentWithin(x, xp[j], xp[j + 1], fp[j], fp[j + 1], lo, hi);
        assert Interp(x, xp, fp) == Segment(x, xp[j], xp[j + 1], fp[j], fp[j + 1]);
      } else {
        assert Interp(x, xp, fp) == fp[j];
      }
    } else if x < xp[0] {
      assert Interp(x, xp, fp) == fp[0];
    } else {
      assert Interp(x, xp, fp) == fp[n - 1];
    }
  }

  /** The straight line through (x0, y0) and (x1, y1), at x. */
  function Segment(x: real, x0: real, x1: real, y0: real, y1: real): real
    requires x0 != x1
  {
    (y1 - y0) / (x1 - x0) * (x - x0) + y0
  }

  /** The straight line between two points stays between their ordinates. */
  lemma SegmentWithin(x: real, x0: real, x1: real, y0: real, y1: real, lo: real, hi: real)
    requires x0 < x < x1 && lo <= y0 <= hi && lo <= y1 <= hi
    ensures lo <= Segment(x, x0, x1, y0, y1) <= hi
  {
    var t := (x - x0) / (x1 - x0);
    UnitFraction(x - x0, x1 - x0);
    Between(y0, y1, t, lo, hi);
    SlopeTimes(y1 - y0, x1 - x0, x - x0, t);
    assert Segment(x, x0, x1, y0, y1) == y0 + t * (y1 - y0);
  }

  lemma FloorIndex(n: nat, q: real)
    requires n > 0 && 0.0 <= q <= 1.0
    ensures 0 <= ((n - 1) as real * q).Floor < n
  {
    assert 0.0 <= (n - 1) as real * q <= (n - 1) as real;
  }

  /** `np.quantile(values, q)` with linear interpolation, on the values in order. */
  function Quantile(sorted: seq<real>, q: real): real
    requires |sorted| > 0 && 0.0 <= q <= 1.0
  {
    FloorIndex(|sorted|, q);
    var h := (|sorted| - 1) as real * q;
    var lo := h.Floor;
    if lo + 1 < |sorted| then sorted[lo] + (h - lo as real) * (sorted[lo + 1] - sorted[lo]) else sorted[lo]
  }

  lemma QuantileWithin(sorted: seq<real>, q: real, lo: real, hi: real)
    requires |sorted| > 0 && 0.0 <= q <= 1.0
    requires forall i :: 0 <= i < |sorted| ==> lo <= sorted[i] <= hi
    ensures lo <= Quantile(sorted, q) <= hi
  {
    FloorIndex(|sorted|, q);
    var h := (|sorted| - 1) as real * q;
    var k := h.Floor;
    if k + 1 < |sorted| {
      Between(sorted[k], sorted[k + 1], h - k as real, lo, hi);
    }
  }

  /**
   * `weighted_quantile(values, weights, q)`; `None` is the NaN returned when
   * no pair is finite. numpy rejects a q outside [0, 1].
   */
  function WeightedQuantile(values: seq<Float>, weights: seq<Float>, q: real): Option<real>
    requires |values| == |weights| && 0.0 <= q <= 1.0
  {
    var kept := Retained(values, weights);
    if |kept| == 0 then None
    else
      var sorted := SortByValue(kept);
      if WeightSum(kept) <= 0.0 then Some(Quantile(Values(sorted), q))
      else
        SortKeepsWeight(kept);
        Some(Interp(q, Cdf(sorted), Values(sorted)))
  }

  /** A number comes back exactly when some pair is finite; otherwise NaN. */
  lemma WeightedQuantileNaN(values: seq<Float>, weights: seq<Float>, q: real)
    requires |values| == |weights| && 0.0 <= q <= 1.0
    ensures WeightedQuantile(values, weights, q).Some? <==>
            exists i :: 0 <= i < |values| && BothFinite(values, weights, i)
  {
    RetainedNonEmpty(values, weights);
  }

  /** The result lies between the smallest and the largest retained value. */
  lemma WeightedQuantileWithin(values: seq<Float>, weights: seq<Float>, q: real, lo: real, hi: real)
    requires |values| == |weights| && 0.0 <= q <= 1.0
    requires forall i :: 0 <= i < |values| && BothFinite(values, weights, i) ==> lo <= values[i].v <= hi
    ensures WeightedQuantile(values, weights, q).Some? ==> lo <= WeightedQuantile(values, weights, q).value <= hi
  {
    var kept := Retained(values, weights);
    if |kept| > 0 {
      RetainedWithin(values, weights, lo, hi);
      SortWithin(kept, lo, hi);
      var sorted := SortByValue(kept);
      if WeightSum(kept) <= 0.0 {
        QuantileWithin(Values(sorted), q, lo, hi);
      } else {
        SortKeepsWeight(kept);
        InterpWithin(q, Cdf(sorted), Values(sorted), lo, hi);
      }
    }
  }

  // ---------------------------------------------------------------------
  // rubric_weights

  /** One scored response's rubric-quality probability (`None` for NaN). */
  datatype ScoreQuality = ScoreQuality(tag: string, rubricId: string, pRubric: Option<real>)

  function Present(ps: seq<Option<real>>): (r: seq<real>)
    ensures |r| <= |ps|
  {
    if |ps| == 0 then []
    else
      var rest := Present(ps[..|ps| - 1]);
      if ps[|ps| - 1].Some? then rest + [ps[|ps| - 1].value] else rest
  }

  /** pandas' mean, which skips NaN and is NaN when nothing is left. */
  function MeanSkipNaN(ps: seq<Option<real>>): Option<real>
  {
    var xs := Present(ps);
    if |xs| == 0 then None else Some(Sum(xs) / |xs| as real)
  }

  /** The mean quality, with NaN filled by 0 and negatives clipped to 0. */
  function RubricWeight(ps: seq<Option<real>>): (r: real)
    ensures 0.0 <= r
    ensures r == 0.0 || MeanSkipNaN(ps) == Some(r)
    ensures MeanSkipNaN(ps).Some? && 0.0 <= MeanSkipNaN(ps).value ==> r == MeanSkipNaN(ps).value
  {
    match MeanSkipNaN(ps)
    case None => 0.0
    case Some(m) => if m < 0.0 then 0.0 else m
  }

  function QualitiesFor(scores: seq<ScoreQuality>, key: (string, string)): seq<Option<real>>
  {
    if |scores| == 0 then []
    else
      var rest := QualitiesFor(scores[..|scores| - 1], key);
      var s := scores[|scores| - 1];
      if (s.tag, s.rubricId) == key then rest + [s.pRubric] else rest
  }

  /** One weight per (tag, rubric) that has scores. */
  function RubricWeights(scores: seq<ScoreQuality>): (w: map<(string, string), real>)
    ensures forall k :: k in w ==> 0.0 <= w[k]
    ensures forall i :: 0 <= i < |scores| ==> (scores[i].tag, scores[i].rubricId) in w
  {
    map k | k in (set i | 0 <= i < |scores| :: (scores[i].tag, scores[i].rubricId)) :: RubricWeight(QualitiesFor(scores, k))
  }

  // ---------------------------------------------------------------------
  // aggregate_per_evidence

  datatype PerRubricRow = PerRubricRow(model: string, tag: string, evidence: string, rubricId: string,
                                       betP: seq<real>)

  datatype ConflictRow = ConflictRow(tag: string, rubricId: string, conflict: real)

  datatype MergedRow = MergedRow(row: PerRubricRow, weight: real)

  datatype EvidenceKey = EvidenceKey(model: string, tag: string, evidence: string)

  datatype AggRow = AggRow(model: string, tag: string, evidence: string, stage: int,
                           meanBetP: real, q10: Option<real>, q90: Option<real>,
                           nRubrics: nat, weightSum: real)

  /** The (tag, rubric) pairs whose combined conflict is below the final threshold. */
  function Usable(conflicts: seq<ConflictRow>): set<(string, string)>
  {
    set i | 0 <= i < |conflicts| && conflicts[i].conflict < CONFLICT_THRESHOLD_FINAL
      :: (conflicts[i].tag, conflicts[i].rubricId)
  }

  /** Inner join with the usable pairs, left join with the weights, NaN weights filled by 0. */
  function Merge(rows: seq<PerRubricRow>, conflicts: seq<ConflictRow>, weights: map<(string, string), real>)
    : (merged: seq<MergedRow>)
    ensures |merged| <= |rows|
    ensures forall k :: 0 <= k < |merged| ==> merged[k].row in rows
  {
    if |rows| == 0 then []
    else
      var rest := Merge(rows[..|rows| - 1], conflicts, weights);
      var r := rows[|rows| - 1];
      var key := (r.tag, r.rubricId);
      if key in Usable(conflicts) then rest + [MergedRow(r, if key in weights then weights[key] else 0.0)]
      else rest
  }

  /**
   * A row takes part in the aggregation exactly when some combination of
   * its (tag, rubric) has conflict below 0.9, and its weight is never negative.
   */
  lemma {:induction false} MergeKeepsUsable(rows: seq<PerRubricRow>, conflicts: seq<ConflictRow>,
                                             weights: map<(string, string), real>)
    requires forall k :: k in weights ==> 0.0 <= weights[k]
    ensures forall m :: m in Merge(rows, conflicts, weights) ==>
              m.row in rows && 0.0 <= m.weight &&
              exists i :: 0 <= i < |conflicts| && conflicts[i].tag == m.row.tag &&
                          conflicts[i].rubricId == m.row.rubricId && conflicts[i].conflict < CONFLICT_THRESHOLD_FINAL
    ensures forall r :: r in rows && (r.tag, r.rubricId) in Usable(conflicts) ==>
              exists m :: m in Merge(rows, conflicts, weights) && m.row == r
  {
    if |rows| > 0 {
      var init := rows[..|rows| - 1];
      MergeKeepsUsable(init, conflicts, weights);
      assert rows == init + [rows[|rows| - 1]];
    }
  }

  function GroupOf(merged: seq<MergedRow>, key: EvidenceKey): (g: seq<MergedRow>)
    ensures |g| <= |merged|
    ensures forall m :: m in g ==> m in merged && EvidenceKey(m.row.model, m.row.tag, m.row.evidence) == key
  {
    if |merged| == 0 then []
    else
      var rest := GroupOf(merged[..|merged| - 1], key);
      var m := merged[|merged| - 1];
      if EvidenceKey(m.row.model, m.row.tag, m.row.evidence) == key then rest + [m] else rest
  }

  /** The weights actually used: all ones when their sum is not positive. */
  function EffectiveWeights(raw: seq<real>): (w: seq<real>)
    ensures |w| == |raw|
    ensures Sum(raw) <= 0.0 ==> forall i :: 0 <= i < |w| ==> w[i] == 1.0
    ensures Sum(raw) > 0.0 ==> w == raw
    ensures |raw| > 0 ==> Sum(w) > 0.0
  {
    if Sum(raw) <= 0.0 then SumOnes(|raw|); Ones(|raw|) else raw
  }

  function AsFloats(s: seq<real>): (r: seq<Float>)
    ensures |r| == |s| && forall i :: 0 <= i < |s| ==> r[i] == Finite(s[i])
  {
    seq(|s|, i requires 0 <= i < |s| => Finite(s[i]))
  }

  function RubricIds(g: seq<MergedRow>): set<string>
  {
    set i | 0 <= i < |g| :: g[i].row.rubricId
  }

  predicate HasStages(rows: seq<PerRubricRow>, stageCount: nat)
  {
    forall r :: r in rows ==> |r.betP| == stageCount
  }

  predicate GroupHasStages(g: seq<MergedRow>, stageCount: nat)
  {
    forall m :: m in g ==> |m.row.betP| == stageCount
  }

  function StageValues(g: seq<MergedRow>, s: nat): (v: seq<real>)
    requires forall k :: 0 <= k < |g| ==> s < |g[k].row.betP|
    ensures |v| == |g| && forall k :: 0 <= k < |g| ==> v[k] == g[k].row.betP[s]
  {
    seq(|g|, k requires 0 <= k < |g| => g[k].row.betP[s])
  }

  function RawWeights(g: seq<MergedRow>): (w: seq<real>)
    ensures |w| == |g| && forall k :: 0 <= k < |g| ==> w[k] == g[k].weight
  {
    seq(|g|, k requires 0 <= k < |g| => g[k].weight)
  }

  /** The output row of one group for the stage at position s. */
  function StageRow(key: EvidenceKey, g: seq<MergedRow>, stages: seq<int>, s: nat): AggRow
    requires |g| > 0 && s < |stages| && GroupHasStages(g, |stages|)
  {
    var values := StageValues(g, s);
    var w := EffectiveWeights(RawWeights(g));
    AggRow(key.model, key.tag, key.evidence, stages[s],
           WeightedMean(values, w),
           WeightedQuantile(AsFloats(values), AsFloats(w), 0.1),
           WeightedQuantile(AsFloats(values), AsFloats(w), 0.9),
           |RubricIds(g)|, Sum(w))
  }

  function GroupRows(key: EvidenceKey, g: seq<MergedRow>, stages: seq<int>): (r: seq<AggRow>)
    requires |g| > 0 && GroupHasStages(g, |stages|)
    ensures |r| == |stages|
  {
    seq(|stages|, s requires 0 <= s < |stages| => StageRow(key, g, stages, s))
  }

  /** Every group in `keys` that has rows, in order, each contributing one row per stage. */
  function AggregateSpec(merged: seq<MergedRow>, keys: seq<EvidenceKey>, stages: seq<int>): seq<AggRow>
    requires GroupHasStages(merged, |stages|)
  {
    if |keys| == 0 then []
    else
      var rest := AggregateSpec(merged, keys[..|keys| - 1], stages);
      var g := GroupOf(merged, keys[|keys| - 1]);
      if |g| == 0 then rest else rest + GroupRows(keys[|keys| - 1], g, stages)
  }

  lemma AggregateSpecStep(merged: seq<MergedRow>, keys: seq<EvidenceKey>, i: nat, stages: seq<int>)
    requires i < |keys| && GroupHasStages(merged, |stages|)
    ensures AggregateSpec(merged, keys[..i + 1], stages) ==
            AggregateSpec(merged, keys[..i], stages) +
            (if |GroupOf(merged, keys[i])| == 0 then [] else GroupRows(keys[i], GroupOf(merged, keys[i]), stages))
  {
    assert keys[..i + 1][..i] == keys[..i];
  }

  lemma TakeOneMore(s: seq<AggRow>, k: nat)
    requires k < |s|
    ensures s[..k + 1] == s[..k] + [s[k]]
  {
  }

  /**
   * `aggregate_per_evidence`: `keys` are the (model, tag, evidence) groups
   * in the order pandas lists them.
   */
  method AggregatePerEvidence(rows: seq<PerRubricRow>, conflicts: seq<ConflictRow>,
                              weights: map<(string, string), real>, keys: seq<EvidenceKey>, stages: seq<int>)
    returns (out: seq<AggRow>)
    requires HasStages(rows, |stages|)
    ensures out == AggregateSpec(Merge(rows, conflicts, weights), keys, stages)
  {
    var merged := Merge(rows, conflicts, weights);
    out := [];
    var i := 0;
    while i < |keys|
      invariant 0 <= i <= |keys|
      invariant out == AggregateSpec(merged, keys[..i], stages)
    {
      AggregateSpecStep(merged, keys, i, stages);
      var g := GroupOf(merged, keys[i]);
      if |g| > 0 {
        ghost var before := out;
        ghost var groupRows := GroupRows(keys[i], g, stages);
        var s := 0;
        while s < |stages|
          invariant 0 <= s <= |stages|
          invariant out == before + groupRows[..s]
        {
          TakeOneMore(groupRows, s);
          out := out + [StageRow(keys[i], g, stages, s)];
          s := s + 1;
        }
        assert groupRows[..s] == groupRows;
      }
      i := i + 1;
    }
    assert keys[..i] == keys;
  }

  /**
   * Every output row of a group: the weight sum is positive, the mean and
   * both quantiles are defined and lie in [0, 1] when the betP values do,
   * and at least one rubric contributes.
   */
  lemma StageRowBounds(key: EvidenceKey, g: seq<MergedRow>, stages: seq<int>, s: nat)
    requires |g| > 0 && s < |stages| && GroupHasStages(g, |stages|)
    requires forall k :: 0 <= k < |g| ==> 0.0 <= g[k].weight
    requires forall k :: 0 <= k < |g| ==> 0.0 <= g[k].row.betP[s] <= 1.0
    ensures var r := StageRow(key, g, stages, s);
            r.weightSum > 0.0 && 0.0 <= r.meanBetP <= 1.0 &&
            r.q10.Some? && 0.0 <= r.q10.value <= 1.0 &&
            r.q90.Some? && 0.0 <= r.q90.value <= 1.0 &&
            r.nRubrics >= 1 && r.stage == stages[s]
  {
    var values := StageValues(g, s);
    var w := EffectiveWeights(RawWeights(g));
    WeightedMeanBounds(values, w, 0.0, 1.0);
    var fv, fw := AsFloats(values), AsFloats(w);
    assert BothFinite(fv, fw, 0);
    WeightedQuantileNaN(fv, fw, 0.1);
    WeightedQuantileNaN(fv, fw, 0.9);
    WeightedQuantileWithin(fv, fw, 0.1, 0.0, 1.0);
    WeightedQuantileWithin(fv, fw, 0.9, 0.0, 1.0);
    assert g[0].row.rubricId in RubricIds(g);
  }

  /**
   * Repeating every row, as the per-rubric table does, moves the upper
   * quantile: betP values 0 and 1 with equal weights give q90 = 0.8, the
   * same rows twice over give 1.0.
   */
  lemma RepeatedRowsShiftQuantile()
    ensures WeightedQuantile([Finite(0.0), Finite(1.0)], [Finite(1.0), Finite(1.0)], 0.9) == Some(0.8)
    ensures WeightedQuantile([Finite(0.0), Finite(0.0), Finite(1.0), Finite(1.0)],
                             [Finite(1.0), Finite(1.0), Finite(1.0), Finite(1.0)], 0.9) == Some(1.0)
  {
    var once := [(0.0, 1.0), (1.0, 1.0)];
    assert Retained([Finite(0.0), Finite(1.0)], [Finite(1.0), Finite(1.0)]) == once;
    assert SortByValue(once) == once;
    assert WeightSum(once) == 2.0;
    assert once[..1] == [(0.0, 1.0)];
    assert once[..2] == once;
    assert Cdf(once) == [0.5, 1.0];
    assert LastAtMost([0.5, 1.0], 0.9) == 0;
    assert Interp(0.9, [0.5, 1.0], [0.0, 1.0]) == 0.8;

    var twice := [(0.0, 1.0), (0.0, 1.0), (1.0, 1.0), (1.0, 1.0)];
    assert Retained([Finite(0.0), Finite(0.0), Finite(1.0), Finite(1.0)],
                    [Finite(1.0), Finite(1.0), Finite(1.0), Finite(1.0)]) == twice;
    assert SortByValue(twice[3..]) == twice[3..];
    assert SortByValue(twice[2..]) == twice[2..];
    assert SortByValue(twice[1..]) == twice[1..];
    assert SortByValue(twice) == twice;
    assert twice[..1] == [(0.0, 1.0)];
    assert twice[..2] == [(0.0, 1.0), (0.0, 1.0)];
    assert twice[..3] == [(0.0, 1.0), (0.0, 1.0), (1.0, 1.0)];
    assert twice[..4] == twice;
    assert WeightSum(twice) == 4.0;
    assert Cdf(twice) == [0.25, 0.5, 0.75, 1.0];
    assert LastAtMost([0.25, 0.5, 0.75, 1.0], 0.9) == 2;
    assert Values(twice) == [0.0, 0.0, 1.0, 1.0];
    assert Interp(0.9, [0.25, 0.5, 0.75, 1.0], [0.0, 0.0, 1.0, 1.0]) == 1.0;
  }
}
