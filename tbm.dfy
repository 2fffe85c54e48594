/**
 * The operations of the notebook's mass-function library: the
 * conjunctive rule with and without normalisation, belief, plausibility
 * and the pignistic transform.
 *
 * The library is not part of this model; these definitions follow the
 * analysis library's own combination rule and belief (DempsterShafer).
 * The unnormalised rule keeps the conflict as the mass of the empty set
 * (the transferable belief model); the normalised rule is Dempster's rule.
 */
module Tbm {
  import opened DempsterShafer

  // ---------------------------------------------------------------------
  // Unnormalised conjunctive combination

  /** One pair (a, b) adds a.w · b.w to the bucket a ∩ b, empty or not. */
  function UStep(m: Mass, a: Focal, b: Focal): Mass
  {
    Add(m, a.focal * b.focal, a.w * b.w)
  }

  function URow(m: Mass, a: Focal, m2: Mass): Mass
  {
    if |m2| == 0 then m else UStep(URow(m, a, m2[..|m2| - 1]), a, m2[|m2| - 1])
  }

  function UPairs(m: Mass, m1: Mass, m2: Mass): Mass
  {
    if |m1| == 0 then m else URow(UPairs(m, m1[..|m1| - 1], m2), m1[|m1| - 1], m2)
  }

  /** `m1.combine_conjunctive(m2, normalization=False)`. */
  function CombineUnnormalised(m1: Mass, m2: Mass): Mass
  {
    UPairs([], m1, m2)
  }

  lemma URowUnfold(m: Mass, a: Focal, m2: Mass)
    requires |m2| > 0
    ensures URow(m, a, m2) == Add(URow(m, a, m2[..|m2| - 1]), a.focal * m2[|m2| - 1].focal, a.w * m2[|m2| - 1].w)
  {
    var r := URow(m, a, m2);
    var added := Add(URow(m, a, m2[..|m2| - 1]), a.focal * m2[|m2| - 1].focal, a.w * m2[|m2| - 1].w);
    assert |r| == |added|;
    assert forall j :: 0 <= j < |r| ==> r[j] == added[j];
  }

  lemma {:induction false} URowClosedForm(m: Mass, a: Focal, m2: Mass, c: set<int>)
    ensures Get(URow(m, a, m2), c) == Get(m, c) + RowWeight(a, m2, c)
    decreases |m2|
  {
    if |m2| > 0 {
      URowUnfold(m, a, m2);
      URowClosedForm(m, a, m2[..|m2| - 1], c);
      GetAdd(URow(m, a, m2[..|m2| - 1]), a.focal * m2[|m2| - 1].focal, a.w * m2[|m2| - 1].w, c);
      assert (c == a.focal * m2[|m2| - 1].focal) == (a.focal * m2[|m2| - 1].focal == c);
    }
  }

  lemma {:induction false} UPairsClosedForm(m: Mass, m1: Mass, m2: Mass, c: set<int>)
    ensures Get(UPairs(m, m1, m2), c) == Get(m, c) + Weight(m1, m2, c)
    decreases |m1|
  {
    if |m1| > 0 {
      UPairsClosedForm(m, m1[..|m1| - 1], m2, c);
      URowClosedForm(UPairs(m, m1[..|m1| - 1], m2), m1[|m1| - 1], m2, c);
    }
  }

  lemma {:induction false} URowTotal(m: Mass, a: Focal, m2: Mass)
    ensures Total(URow(m, a, m2)) == Total(m) + RowMass(a, m2)
    decreases |m2|
  {
    if |m2| > 0 {
      var init, b := m2[..|m2| - 1], m2[|m2| - 1];
      var prev := URow(m, a, init);
      URowUnfold(m, a, m2);
      URowTotal(m, a, init);
      TotalAdd(prev, a.focal * b.focal, a.w * b.w);
      assert RowMass(a, m2) == RowMass(a, init) + a.w * b.w;
    }
  }

  lemma {:induction false} UPairsTotal(m: Mass, m1: Mass, m2: Mass)
    ensures Total(UPairs(m, m1, m2)) == Total(m) + PairsMass(m1, m2)
    decreases |m1|
  {
    if |m1| > 0 {
      UPairsTotal(m, m1[..|m1| - 1], m2);
      URowTotal(UPairs(m, m1[..|m1| - 1], m2), m1[|m1| - 1], m2);
    }
  }

  /** Shape and sign of the accumulated dict. */
  lemma {:induction false} URowShape(m: Mass, a: Focal, m2: Mass)
    ensures Distinct(m) ==> Distinct(URow(m, a, m2))
    ensures NonNegative(m) && a.w >= 0.0 && NonNegative(m2) ==> NonNegative(URow(m, a, m2))
    decreases |m2|
  {
    if |m2| > 0 {
      var b := m2[|m2| - 1];
      var prev := URow(m, a, m2[..|m2| - 1]);
      URowShape(m, a, m2[..|m2| - 1]);
      AddKeys(prev, a.focal * b.focal, a.w * b.w);
      if NonNegative(m) && a.w >= 0.0 && NonNegative(m2) {
        assert b.w >= 0.0;
        AddNonNegative(prev, a.focal * b.focal, a.w * b.w);
      }
    }
  }

  lemma {:induction false} UPairsShape(m: Mass, m1: Mass, m2: Mass)
    ensures Distinct(m) ==> Distinct(UPairs(m, m1, m2))
    ensures NonNegative(m) && NonNegative(m1) && NonNegative(m2) ==> NonNegative(UPairs(m, m1, m2))
    decreases |m1|
  {
    if |m1| > 0 {
      UPairsShape(m, m1[..|m1| - 1], m2);
      URowShape(UPairs(m, m1[..|m1| - 1], m2), m1[|m1| - 1], m2);
    }
  }

  /**
   * The unnormalised rule conserves mass (its total is Σm1 · Σm2), keeps
   * the keys distinct and the weights non-negative.
   */
  lemma CombineUnnormalisedConserves(m1: Mass, m2: Mass)
    ensures Total(CombineUnnormalised(m1, m2)) == Total(m1) * Total(m2)
    ensures Distinct(CombineUnnormalised(m1, m2))
    ensures NonNegative(m1) && NonNegative(m2) ==> NonNegative(CombineUnnormalised(m1, m2))
  {
    UPairsTotal([], m1, m2);
    PairsMassProduct(m1, m2);
    UPairsShape([], m1, m2);
  }

  /** The unnormalised rule does not depend on the order of its arguments. */
  lemma CombineUnnormalisedSymmetric(m1: Mass, m2: Mass, c: set<int>)
    ensures Get(CombineUnnormalised(m1, m2), c) == Get(CombineUnnormalised(m2, m1), c)
  {
    UPairsClosedForm([], m1, m2, c);
    UPairsClosedForm([], m2, m1, c);
    WeightSymmetric(m1, m2, c);
  }

  /**
   * The unnormalised rule agrees with the analysis library's combination
   * before normalisation: the mass of {} is its conflict k, and every
   * other key carries the library's pre-normalised bucket.
   */
  lemma CombineUnnormalisedAgrees(m1: Mass, m2: Mass, c: set<int>)
    ensures Get(CombineUnnormalised(m1, m2), {}) == Conjunctive(m1, m2).k
    ensures c != {} ==> Get(CombineUnnormalised(m1, m2), c) == Get(Conjunctive(m1, m2).buckets, c)
  {
    UPairsClosedForm([], m1, m2, {});
    UPairsClosedForm([], m1, m2, c);
    PairsClosedForm(Acc([], 0.0), m1, m2, {});
    PairsClosedForm(Acc([], 0.0), m1, m2, c);
  }

  /** `m1.combine_conjunctive(m2, normalization=True)`: Dempster's rule. */
  function CombineNormalisedRule(m1: Mass, m2: Mass): Mass
  {
    CombineSpec(m1, m2).mass
  }

  // ---------------------------------------------------------------------
  // Folds: functools.reduce over a non-empty list of masses

  function FoldUnnormalised(ms: seq<Mass>): Mass
    requires |ms| > 0
  {
    if |ms| == 1 then ms[0] else CombineUnnormalised(FoldUnnormalised(ms[..|ms| - 1]), ms[|ms| - 1])
  }

  function FoldNormalised(ms: seq<Mass>): Mass
    requires |ms| > 0
  {
    if |ms| == 1 then ms[0] else CombineNormalisedRule(FoldNormalised(ms[..|ms| - 1]), ms[|ms| - 1])
  }

  /** Every mass of the list is a normalised, non-negative dict. */
  predicate AllProper(ms: seq<Mass>)
  {
    forall i :: 0 <= i < |ms| ==> Distinct(ms[i]) && NonNegative(ms[i]) && Total(ms[i]) == 1.0
  }

  /** Folding proper masses with the unnormalised rule gives a proper mass. */
  lemma {:induction false} FoldUnnormalisedProper(ms: seq<Mass>)
    requires |ms| > 0 && AllProper(ms)
    ensures Distinct(FoldUnnormalised(ms)) && NonNegative(FoldUnnormalised(ms))
    ensures Total(FoldUnnormalised(ms)) == 1.0
    decreases |ms|
  {
    if |ms| > 1 {
      var init := ms[..|ms| - 1];
      assert AllProper(init) by {
        forall i | 0 <= i < |init| ensures Distinct(init[i]) && NonNegative(init[i]) && Total(init[i]) == 1.0 {
          assert init[i] == ms[i];
        }
      }
      FoldUnnormalisedProper(init);
      CombineUnnormalisedConserves(FoldUnnormalised(init), ms[|ms| - 1]);
    }
  }

  /** Folding with Dempster's rule never yields the empty set as a key. */
  lemma {:induction false} FoldNormalisedShape(ms: seq<Mass>)
    requires |ms| > 0 && NoEmptyKey(ms[0]) && Distinct(ms[0])
    ensures NoEmptyKey(FoldNormalised(ms)) && Distinct(FoldNormalised(ms))
    decreases |ms|
  {
    if |ms| > 1 {
      var init := ms[..|ms| - 1];
      FoldNormalisedShape(init);
      CombineNormalised(FoldNormalised(init), ms[|ms| - 1]);
    }
  }

  /** Combining the empty dict (total conflict reached earlier) gives the empty dict. */
  lemma CombineEmptyLeft(m2: Mass)
    ensures CombineNormalisedRule([], m2) == []
  {
    assert Conjunctive([], m2) == Acc([], 0.0);
    assert Scale([], 1.0) == [];
  }

  /**
   * Folding proper masses with Dempster's rule gives a non-negative mass
   * that sums to 1, or the empty dict once the conflict was total.
   */
  lemma {:induction false} FoldNormalisedProper(ms: seq<Mass>)
    requires |ms| > 0 && AllProper(ms)
    ensures NonNegative(FoldNormalised(ms))
    ensures Total(FoldNormalised(ms)) == 1.0 || FoldNormalised(ms) == []
    decreases |ms|
  {
    if |ms| > 1 {
      var init := ms[..|ms| - 1];
      assert AllProper(init) by {
        forall i | 0 <= i < |init| ensures Distinct(init[i]) && NonNegative(init[i]) && Total(init[i]) == 1.0 {
          assert init[i] == ms[i];
        }
      }
      FoldNormalisedProper(init);
      if FoldNormalised(init) == [] {
        CombineEmptyLeft(ms[|ms| - 1]);
      } else {
        CombineProper(FoldNormalised(init), ms[|ms| - 1]);
      }
    }
  }

  // ---------------------------------------------------------------------
  // Pignistic transform

  /** Σ over the items whose focal set contains s of m(A) / |A|. */
  function PignisticSum(m: Mass, s: int): real
  {
    if |m| == 0 then 0.0
    else
      var last := m[|m| - 1];
      PignisticSum(m[..|m| - 1], s) + (if s in last.focal then last.w / (|last.focal| as real) else 0.0)
  }

  /**
   * BetP(s) = Σ_{A ∋ s} m(A) / |A|, renormalised by 1 − m(∅); when all
   * the mass is on ∅ there is nothing to distribute and BetP(s) = 0.
   */
  function Pignistic(m: Mass, s: int): real
  {
    var d := 1.0 - Get(m, {});
    if d == 0.0 then 0.0 else PignisticSum(m, s) / d
  }

  lemma UnitFraction(x: real, d: real)
    requires 0.0 <= x <= d && d > 0.0
    ensures 0.0 <= x / d <= 1.0
  {
    assert x / d * d == x;
  }

  lemma {:induction false} PignisticSumBounds(m: Mass, s: int)
    requires NonNegative(m)
    ensures 0.0 <= PignisticSum(m, s) <= SumWhere(m, HasElem(s))
    decreases |m|
  {
    if |m| > 0 {
      PignisticSumBounds(m[..|m| - 1], s);
      var last := m[|m| - 1];
      if s in last.focal {
        var n := |last.focal| as real;
        assert n >= 1.0;
        assert last.w / n <= last.w;
      }
    }
  }

  /** For a non-negative mass of total at most 1, every BetP lies in [0, 1]. */
  lemma PignisticBounds(m: Mass, s: int)
    requires NonNegative(m) && Total(m) <= 1.0
    ensures 0.0 <= Pignistic(m, s) <= 1.0
  {
    var d := 1.0 - Get(m, {});
    if d != 0.0 {
      PignisticSumBounds(m, s);
      SumWhereMonotone(m, HasElem(s), NonEmpty);
      SumWhereComplement(m, KeyIs({}), NonEmpty);
      SumWhereNonNegative(m, KeyIs({}));
      SumWhereNonNegative(m, NonEmpty);
      assert 0.0 <= PignisticSum(m, s) <= d;
      assert d > 0.0;
      UnitFraction(PignisticSum(m, s), d);
    }
  }
}
