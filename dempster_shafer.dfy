/**
 * Dempster–Shafer mass functions over a frame of stage numbers, and the
 * analysis library's combination rule, belief and plausibility.
 *
 * A mass function is a Python dict from focal sets to weights; it is
 * modelled as the dict's items in insertion order, with distinct keys.
 */
module DempsterShafer {

  /** One item of a mass function. */
  datatype Focal = Focal(focal: set<int>, w: real)

  type Mass = seq<Focal>

  /** The keys of a dict are distinct. */
  predicate Distinct(m: Mass)
  {
    forall i, j :: 0 <= i < j < |m| ==> m[i].focal != m[j].focal
  }

  predicate NonNegative(m: Mass)
  {
    forall i :: 0 <= i < |m| ==> m[i].w >= 0.0
  }

  /** No item is keyed by the empty set. */
  predicate NoEmptyKey(m: Mass)
  {
    forall i :: 0 <= i < |m| ==> m[i].focal != {}
  }

  /** Every focal set lies inside the frame. */
  predicate Within(m: Mass, frame: set<int>)
  {
    forall i :: 0 <= i < |m| ==> m[i].focal <= frame
  }

  /** Which focal sets a sum ranges over. */
  datatype Filter = AnyKey | KeyIs(key: set<int>) | SubsetOf(h: set<int>) | HasElem(s: int) | NonEmpty

  predicate Holds(p: Filter, a: set<int>)
  {
    match p
    case AnyKey => true
    case KeyIs(key) => a == key
    case SubsetOf(h) => a <= h
    case HasElem(s) => s in a
    case NonEmpty => a != {}
  }

  /** Sum of the weights whose focal set satisfies `p`. */
  function SumWhere(m: Mass, p: Filter): real
  {
    if |m| == 0 then 0.0
    else SumWhere(m[..|m| - 1], p) + (if Holds(p, m[|m| - 1].focal) then m[|m| - 1].w else 0.0)
  }

  /** Total mass. */
  function Total(m: Mass): real
  {
    SumWhere(m, AnyKey)
  }

  /** `m.get(a, 0)` for a dict with distinct keys. */
  function Get(m: Mass, a: set<int>): real
  {
    SumWhere(m, KeyIs(a))
  }

  /** The set of keys. */
  function Keys(m: Mass): set<set<int>>
  {
    set i | 0 <= i < |m| :: m[i].focal
  }

  /** Index of the key `a`, or |m| when it is absent. */
  function Find(m: Mass, a: set<int>): (r: nat)
    ensures r <= |m|
    ensures r < |m| ==> m[r].focal == a
    ensures forall i :: 0 <= i < r ==> m[i].focal != a
  {
    if |m| == 0 then 0
    else if m[0].focal == a then 0
    else 1 + Find(m[1..], a)
  }

  /** `d[a] = d.get(a, 0) + v`: update in place, or append a new key. */
  function Add(m: Mass, a: set<int>, v: real): Mass
  {
    var i := Find(m, a);
    if i < |m| then m[i := Focal(a, m[i].w + v)] else m + [Focal(a, v)]
  }

  // ---------------------------------------------------------------------
  // Lemmas about sums over items

  lemma {:induction false} SumWhereUpdate(m: Mass, i: int, e: Focal, p: Filter)
    requires 0 <= i < |m|
    ensures SumWhere(m[i := e], p)
         == SumWhere(m, p) - (if Holds(p, m[i].focal) then m[i].w else 0.0)
                           + (if Holds(p, e.focal) then e.w else 0.0)
    decreases |m|
  {
    var n := |m|;
    if i == n - 1 {
      assert m[i := e][..n - 1] == m[..n - 1];
    } else {
      assert m[i := e][..n - 1] == m[..n - 1][i := e];
      SumWhereUpdate(m[..n - 1], i, e, p);
    }
  }

  lemma SumWhereAppend(m: Mass, e: Focal, p: Filter)
    ensures SumWhere(m + [e], p) == SumWhere(m, p) + (if Holds(p, e.focal) then e.w else 0.0)
  {
    assert (m + [e])[..|m|] == m;
  }

  lemma {:induction false} SumWhereNonNegative(m: Mass, p: Filter)
    requires NonNegative(m)
    ensures SumWhere(m, p) >= 0.0
    decreases |m|
  {
    if |m| > 0 {
      SumWhereNonNegative(m[..|m| - 1], p);
    }
  }

  /** Two predicates that no key satisfies together share out at most the total. */
  lemma {:induction false} SumWhereDisjoint(m: Mass, p: Filter, q: Filter)
    requires NonNegative(m)
    requires forall i :: 0 <= i < |m| ==> !(Holds(p, m[i].focal) && Holds(q, m[i].focal))
    ensures SumWhere(m, p) + SumWhere(m, q) <= Total(m)
    decreases |m|
  {
    if |m| > 0 {
      SumWhereDisjoint(m[..|m| - 1], p, q);
    }
  }

  /** Sums are monotone in the predicate. */
  lemma {:induction false} SumWhereMonotone(m: Mass, p: Filter, q: Filter)
    requires NonNegative(m)
    requires forall i :: 0 <= i < |m| ==> Holds(p, m[i].focal) ==> Holds(q, m[i].focal)
    ensures SumWhere(m, p) <= SumWhere(m, q)
    decreases |m|
  {
    if |m| > 0 {
      SumWhereMonotone(m[..|m| - 1], p, q);
    }
  }

  /** Two predicates that split every key between them split the total. */
  lemma {:induction false} SumWhereComplement(m: Mass, p: Filter, q: Filter)
    requires forall i :: 0 <= i < |m| ==> (Holds(p, m[i].focal) <==> !Holds(q, m[i].focal))
    ensures SumWhere(m, p) + SumWhere(m, q) == Total(m)
    decreases |m|
  {
    if |m| > 0 {
      SumWhereComplement(m[..|m| - 1], p, q);
    }
  }

  /** A predicate true on every key sums to the total. */
  lemma {:induction false} SumWhereAll(m: Mass, p: Filter)
    requires forall i :: 0 <= i < |m| ==> Holds(p, m[i].focal)
    ensures SumWhere(m, p) == Total(m)
    decreases |m|
  {
    if |m| > 0 {
      SumWhereAll(m[..|m| - 1], p);
    }
  }

  /** A predicate false on every key sums to zero. */
  lemma {:induction false} SumWhereNone(m: Mass, p: Filter)
    requires forall i :: 0 <= i < |m| ==> !Holds(p, m[i].focal)
    ensures SumWhere(m, p) == 0.0
    decreases |m|
  {
    if |m| > 0 {
      SumWhereNone(m[..|m| - 1], p);
    }
  }

  /** Accumulating into a dict adds `v` at key `a` and nowhere else. */
  lemma GetAdd(m: Mass, a: set<int>, v: real, c: set<int>)
    ensures Get(Add(m, a, v), c) == Get(m, c) + (if c == a then v else 0.0)
  {
    var i := Find(m, a);
    var p := KeyIs(c);
    if i < |m| {
      SumWhereUpdate(m, i, Focal(a, m[i].w + v), p);
    } else {
      SumWhereAppend(m, Focal(a, v), p);
    }
  }

  lemma TotalAdd(m: Mass, a: set<int>, v: real)
    ensures Total(Add(m, a, v)) == Total(m) + v
  {
    var i := Find(m, a);
    var p := AnyKey;
    if i < |m| {
      SumWhereUpdate(m, i, Focal(a, m[i].w + v), p);
    } else {
      SumWhereAppend(m, Focal(a, v), p);
    }
  }

  lemma AddKeys(m: Mass, a: set<int>, v: real)
    ensures Keys(Add(m, a, v)) == Keys(m) + {a}
    ensures Distinct(m) ==> Distinct(Add(m, a, v))
    ensures |Add(m, a, v)| == |m| || |Add(m, a, v)| == |m| + 1
  {
    var i := Find(m, a);
    var r := Add(m, a, v);
    if i < |m| {
      forall x | x in Keys(r) ensures x in Keys(m) + {a} {
        var j :| 0 <= j < |r| && r[j].focal == x;
      }
      forall x | x in Keys(m) + {a} ensures x in Keys(r) {
        if x == a { assert r[i].focal == x; }
        else { var j :| 0 <= j < |m| && m[j].focal == x; assert r[j].focal == x; }
      }
    } else {
      forall x | x in Keys(r) ensures x in Keys(m) + {a} {
        var j :| 0 <= j < |r| && r[j].focal == x;
        if j < |m| { assert m[j].focal == x; }
      }
      forall x | x in Keys(m) + {a} ensures x in Keys(r) {
        if x == a { assert r[|m|].focal == x; }
        else { var j :| 0 <= j < |m| && m[j].focal == x; assert r[j].focal == x; }
      }
    }
  }

  /** In a dict with distinct keys, the item at index `i` is `Get` at its key. */
  lemma {:induction false} GetAtIndex(m: Mass, i: int)
    requires Distinct(m) && 0 <= i < |m|
    ensures Get(m, m[i].focal) == m[i].w
    decreases |m|
  {
    var n := |m|;
    var p := KeyIs(m[i].focal);
    if i == n - 1 {
      SumWhereNone(m[..n - 1], p);
    } else {
      GetAtIndex(m[..n - 1], i);
    }
  }

  /** Accumulating a non-negative weight into a non-negative dict keeps it non-negative. */
  lemma AddNonNegative(m: Mass, a: set<int>, v: real)
    requires NonNegative(m) && v >= 0.0
    ensures NonNegative(Add(m, a, v))
  {
  }

  lemma GetAbsent(m: Mass, a: set<int>)
    requires a !in Keys(m)
    ensures Get(m, a) == 0.0
  {
    var p := KeyIs(a);
    forall i | 0 <= i < |m| ensures !Holds(p, m[i].focal) {
      assert m[i].focal in Keys(m);
    }
    SumWhereNone(m, p);
  }

  // ---------------------------------------------------------------------
  // Mass from a verdict (dempster_shafer.py, mass_from_verdict)

  /** The set of decoded scores carries the whole unit of mass. */
  function MassFromVerdict(decodedScores: seq<int>): (m: Mass)
    ensures |m| == 1 && Keys(m) == {set s | s in decodedScores}
    ensures Total(m) == 1.0 && Get(m, set s | s in decodedScores) == 1.0
  {
    var focal := set s | s in decodedScores;
    var m := [Focal(focal, 1.0)];
    assert m[..0] == [];
    assert SumWhere(m, AnyKey) == SumWhere(m[..0], AnyKey) + 1.0;
    assert SumWhere(m, KeyIs(focal)) == SumWhere(m[..0], KeyIs(focal)) + 1.0;
    assert Keys(m) == {m[0].focal};
    m
  }

  /** Order and repetitions among the scores do not matter. */
  lemma MassFromVerdictSetOnly(xs: seq<int>, ys: seq<int>)
    requires forall s :: s in xs <==> s in ys
    ensures MassFromVerdict(xs) == MassFromVerdict(ys)
  {
    var a := set s | s in xs;
    var b := set s | s in ys;
    forall s ensures s in a <==> s in b {
      assert s in a <==> s in xs;
      assert s in b <==> s in ys;
    }
    assert a == b;
  }

  // ---------------------------------------------------------------------
  // Conjunctive combination (dempster_shafer.py, combine)

  /** The running state of the nested loops: the buckets and the conflict k. */
  datatype Acc = Acc(buckets: Mass, k: real)

  /** One inner-loop step for the pair (a, b). */
  function Step(acc: Acc, a: Focal, b: Focal): Acc
  {
    if a.focal * b.focal == {} then Acc(acc.buckets, acc.k + a.w * b.w)
    else Acc(Add(acc.buckets, a.focal * b.focal, a.w * b.w), acc.k)
  }

  /** The inner loop over the items of m2, after the outer item a. */
  function Row(acc: Acc, a: Focal, m2: Mass): Acc
  {
    if |m2| == 0 then acc
    else Step(Row(acc, a, m2[..|m2| - 1]), a, m2[|m2| - 1])
  }

  /** Both loops, over every pair of items of m1 and m2. */
  function Pairs(acc: Acc, m1: Mass, m2: Mass): Acc
  {
    if |m1| == 0 then acc
    else Row(Pairs(acc, m1[..|m1| - 1], m2), m1[|m1| - 1], m2)
  }

  /** The unnormalised buckets and the conflict of combining m1 with m2. */
  function Conjunctive(m1: Mass, m2: Mass): Acc
  {
    Pairs(Acc([], 0.0), m1, m2)
  }

  /** Every weight divided by `norm`. */
  function Scale(m: Mass, norm: real): (r: Mass)
    requires norm != 0.0
    ensures |r| == |m|
    ensures forall i :: 0 <= i < |m| ==> r[i] == Focal(m[i].focal, m[i].w / norm)
  {
    if |m| == 0 then [] else Scale(m[..|m| - 1], norm) + [Focal(m[|m| - 1].focal, m[|m| - 1].w / norm)]
  }

  datatype Combined = Combined(mass: Mass, conflict: real)

  /** The result of `combine(m1, m2)`: total conflict gives ({}, 1.0). */
  function CombineSpec(m1: Mass, m2: Mass): Combined
  {
    var c := Conjunctive(m1, m2);
    var norm := 1.0 - c.k;
    if norm == 0.0 then Combined([], 1.0) else Combined(Scale(c.buckets, norm), c.k)
  }

  /** Dempster's rule with the nested loops of the source. */
  method Combine(m1: Mass, m2: Mass) returns (combined: Mass, k: real)
    ensures Combined(combined, k) == CombineSpec(m1, m2)
  {
    var buckets: Mass := [];
    k := 0.0;
    var i := 0;
    while i < |m1|
      invariant 0 <= i <= |m1|
      invariant Acc(buckets, k) == Pairs(Acc([], 0.0), m1[..i], m2)
    {
      var a := m1[i];
      var j := 0;
      while j < |m2|
        invariant 0 <= j <= |m2|
        invariant Acc(buckets, k) == Row(Pairs(Acc([], 0.0), m1[..i], m2), a, m2[..j])
      {
        var b := m2[j];
        assert m2[..j + 1][..j] == m2[..j] && m2[..j + 1][j] == b;
        var inter := a.focal * b.focal;
        ghost var prev := Acc(buckets, k);
        if inter == {} {
          StepConflict(prev, a, b);
          k := k + a.w * b.w;
        } else {
          StepAdds(prev, a, b);
          buckets := Add(buckets, inter, a.w * b.w);
        }
        assert Acc(buckets, k) == Step(prev, a, b);
        j := j + 1;
      }
      assert m2[..j] == m2;
      assert m1[..i + 1][..i] == m1[..i];
      i := i + 1;
    }
    assert m1[..i] == m1;
    var norm := 1.0 - k;
    if norm == 0.0 {
      combined, k := [], 1.0;
    } else {
      combined := [];
      var t := 0;
      while t < |buckets|
        invariant 0 <= t <= |buckets|
        invariant combined == Scale(buckets[..t], norm)
      {
        assert buckets[..t + 1][..t] == buckets[..t];
        combined := combined + [Focal(buckets[t].focal, buckets[t].w / norm)];
        t := t + 1;
      }
      assert buckets[..t] == buckets;
    }
  }

  // ---------------------------------------------------------------------
  // Properties of the combination

  /** Shape invariants of the buckets: distinct keys, never the empty set. */
  predicate Shaped(acc: Acc)
  {
    Distinct(acc.buckets) && NoEmptyKey(acc.buckets)
  }

  lemma StepShaped(acc: Acc, a: Focal, b: Focal)
    requires Shaped(acc)
    ensures Shaped(Step(acc, a, b))
  {
    var inter := a.focal * b.focal;
    if inter != {} {
      AddKeys(acc.buckets, inter, a.w * b.w);
      var r := Add(acc.buckets, inter, a.w * b.w);
      forall i | 0 <= i < |r| ensures r[i].focal != {} {
        assert r[i].focal in Keys(r);
      }
    }
  }

  lemma {:induction false} RowShaped(acc: Acc, a: Focal, m2: Mass)
    requires Shaped(acc)
    ensures Shaped(Row(acc, a, m2))
    decreases |m2|
  {
    if |m2| > 0 {
      RowShaped(acc, a, m2[..|m2| - 1]);
      StepShaped(Row(acc, a, m2[..|m2| - 1]), a, m2[|m2| - 1]);
    }
  }

  lemma {:induction false} PairsShaped(acc: Acc, m1: Mass, m2: Mass)
    requires Shaped(acc)
    ensures Shaped(Pairs(acc, m1, m2))
    decreases |m1|
  {
    if |m1| > 0 {
      PairsShaped(acc, m1[..|m1| - 1], m2);
      RowShaped(Pairs(acc, m1[..|m1| - 1], m2), m1[|m1| - 1], m2);
    }
  }

  /** A disjoint pair adds its product to the conflict. */
  lemma StepConflict(acc: Acc, a: Focal, b: Focal)
    requires a.focal * b.focal == {}
    ensures Step(acc, a, b) == Acc(acc.buckets, acc.k + a.w * b.w)
  {
  }

  /** An intersecting pair adds its product to the bucket of the intersection. */
  lemma StepAdds(acc: Acc, a: Focal, b: Focal)
    requires a.focal * b.focal != {}
    ensures Step(acc, a, b) == Acc(Add(acc.buckets, a.focal * b.focal, a.w * b.w), acc.k)
  {
    var added := Add(acc.buckets, a.focal * b.focal, a.w * b.w);
    var r := Step(acc, a, b).buckets;
    assert |r| == |added|;
    assert forall j :: 0 <= j < |added| ==> r[j] == added[j];
  }

  lemma Distribute(x: real, y: real, z: real)
    ensures x * (y + z) == x * y + x * z
    ensures (y + z) * x == y * x + z * x
  {
  }

  lemma DivideSum(y: real, z: real, n: real)
    requires n != 0.0
    ensures (y + z) / n == y / n + z / n
  {
  }

  /** Each pair adds its product either to k or to a bucket. */
  lemma StepConserves(acc: Acc, a: Focal, b: Focal)
    ensures Step(acc, a, b).k + Total(Step(acc, a, b).buckets) == acc.k + Total(acc.buckets) + a.w * b.w
  {
    if a.focal * b.focal == {} {
      StepConflict(acc, a, b);
    } else {
      StepAdds(acc, a, b);
      TotalAdd(acc.buckets, a.focal * b.focal, a.w * b.w);
    }
  }

  /** Σ over b in m2 of a.w · b.w, the mass the row of a distributes. */
  function RowMass(a: Focal, m2: Mass): real
  {
    if |m2| == 0 then 0.0 else RowMass(a, m2[..|m2| - 1]) + a.w * m2[|m2| - 1].w
  }

  /** Σ over every pair of a.w · b.w. */
  function PairsMass(m1: Mass, m2: Mass): real
  {
    if |m1| == 0 then 0.0 else PairsMass(m1[..|m1| - 1], m2) + RowMass(m1[|m1| - 1], m2)
  }

  lemma {:induction false} RowMassProduct(a: Focal, m2: Mass)
    ensures RowMass(a, m2) == a.w * Total(m2)
    decreases |m2|
  {
    if |m2| > 0 {
      var init := m2[..|m2| - 1];
      RowMassProduct(a, init);
      assert Total(m2) == Total(init) + m2[|m2| - 1].w;
      Distribute(a.w, Total(init), m2[|m2| - 1].w);
    }
  }

  lemma {:induction false} PairsMassProduct(m1: Mass, m2: Mass)
    ensures PairsMass(m1, m2) == Total(m1) * Total(m2)
    decreases |m1|
  {
    if |m1| > 0 {
      var init := m1[..|m1| - 1];
      PairsMassProduct(init, m2);
      RowMassProduct(m1[|m1| - 1], m2);
      assert Total(m1) == Total(init) + m1[|m1| - 1].w;
      Distribute(Total(m2), Total(init), m1[|m1| - 1].w);
    }
  }

  lemma {:induction false} RowConserves(acc: Acc, a: Focal, m2: Mass)
    ensures Row(acc, a, m2).k + Total(Row(acc, a, m2).buckets)
         == acc.k + Total(acc.buckets) + RowMass(a, m2)
    decreases |m2|
  {
    if |m2| > 0 {
      var init, b := m2[..|m2| - 1], m2[|m2| - 1];
      var r := Row(acc, a, init);
      RowConserves(acc, a, init);
      StepConserves(r, a, b);
      assert Row(acc, a, m2) == Step(r, a, b);
      assert RowMass(a, m2) == RowMass(a, init) + a.w * b.w;
    }
  }

  lemma {:induction false} PairsConserves(acc: Acc, m1: Mass, m2: Mass)
    ensures Pairs(acc, m1, m2).k + Total(Pairs(acc, m1, m2).buckets)
         == acc.k + Total(acc.buckets) + PairsMass(m1, m2)
    decreases |m1|
  {
    if |m1| > 0 {
      var init, a := m1[..|m1| - 1], m1[|m1| - 1];
      PairsConserves(acc, init, m2);
      RowConserves(Pairs(acc, init, m2), a, m2);
    }
  }

  /** Mass conservation: k plus the pre-normalised buckets is Σm1 · Σm2. */
  lemma ConjunctiveConserves(m1: Mass, m2: Mass)
    ensures Conjunctive(m1, m2).k + Total(Conjunctive(m1, m2).buckets) == Total(m1) * Total(m2)
    ensures Shaped(Conjunctive(m1, m2))
  {
    PairsConserves(Acc([], 0.0), m1, m2);
    PairsMassProduct(m1, m2);
    PairsShaped(Acc([], 0.0), m1, m2);
  }

  lemma {:induction false} TotalScale(m: Mass, norm: real)
    requires norm != 0.0
    ensures Total(Scale(m, norm)) == Total(m) / norm
    decreases |m|
  {
    if |m| > 0 {
      var n := |m|;
      assert Scale(m, norm)[..n - 1] == Scale(m[..n - 1], norm);
      TotalScale(m[..n - 1], norm);
      assert Total(m) == Total(m[..n - 1]) + m[n - 1].w;
      DivideSum(Total(m[..n - 1]), m[n - 1].w, norm);
    }
  }

  lemma {:induction false} GetScale(m: Mass, norm: real, c: set<int>)
    requires norm != 0.0
    ensures Get(Scale(m, norm), c) == Get(m, c) / norm
    decreases |m|
  {
    if |m| > 0 {
      var n := |m|;
      assert Scale(m, norm)[..n - 1] == Scale(m[..n - 1], norm);
      GetScale(m[..n - 1], norm, c);
      var last := if m[n - 1].focal == c then m[n - 1].w else 0.0;
      assert Get(m, c) == Get(m[..n - 1], c) + last;
      DivideSum(Get(m[..n - 1], c), last, norm);
    }
  }

  /**
   * The combined mass never has the empty set as a key and has distinct
   * keys; when 1 − k ≠ 0 and both inputs sum to 1, it sums to 1.
   */
  lemma CombineNormalised(m1: Mass, m2: Mass)
    ensures NoEmptyKey(CombineSpec(m1, m2).mass) && Distinct(CombineSpec(m1, m2).mass)
    ensures Total(m1) == 1.0 && Total(m2) == 1.0 && CombineSpec(m1, m2).conflict != 1.0
            ==> Total(CombineSpec(m1, m2).mass) == 1.0
  {
    var c := Conjunctive(m1, m2);
    ConjunctiveConserves(m1, m2);
    var norm := 1.0 - c.k;
    if norm != 0.0 {
      var r := Scale(c.buckets, norm);
      assert CombineSpec(m1, m2).mass == r;
      TotalScale(c.buckets, norm);
      assert forall i :: 0 <= i < |r| ==> r[i].focal == c.buckets[i].focal;
      assert NoEmptyKey(r);
      assert Distinct(r);
      if Total(m1) == 1.0 && Total(m2) == 1.0 {
        assert Total(c.buckets) == norm;
        assert Total(r) == norm / norm;
        assert norm / norm == 1.0;
      }
    }
  }

  /** Non-negative inputs give non-negative buckets and conflict. */
  lemma StepNonNegative(acc: Acc, a: Focal, b: Focal)
    requires NonNegative(acc.buckets) && acc.k >= 0.0 && a.w >= 0.0 && b.w >= 0.0
    ensures NonNegative(Step(acc, a, b).buckets) && Step(acc, a, b).k >= 0.0
  {
    if a.focal * b.focal == {} {
      StepConflict(acc, a, b);
    } else {
      StepAdds(acc, a, b);
      AddNonNegative(acc.buckets, a.focal * b.focal, a.w * b.w);
    }
  }

  lemma {:induction false} RowNonNegative(acc: Acc, a: Focal, m2: Mass)
    requires NonNegative(acc.buckets) && acc.k >= 0.0 && a.w >= 0.0 && NonNegative(m2)
    ensures NonNegative(Row(acc, a, m2).buckets) && Row(acc, a, m2).k >= 0.0
    decreases |m2|
  {
    if |m2| > 0 {
      RowNonNegative(acc, a, m2[..|m2| - 1]);
      StepNonNegative(Row(acc, a, m2[..|m2| - 1]), a, m2[|m2| - 1]);
    }
  }

  lemma {:induction false} PairsNonNegative(acc: Acc, m1: Mass, m2: Mass)
    requires NonNegative(acc.buckets) && acc.k >= 0.0 && NonNegative(m1) && NonNegative(m2)
    ensures NonNegative(Pairs(acc, m1, m2).buckets) && Pairs(acc, m1, m2).k >= 0.0
    decreases |m1|
  {
    if |m1| > 0 {
      PairsNonNegative(acc, m1[..|m1| - 1], m2);
      RowNonNegative(Pairs(acc, m1[..|m1| - 1], m2), m1[|m1| - 1], m2);
    }
  }

  /**
   * Dempster's rule maps two non-negative masses that sum to 1 to a
   * non-negative mass that sums to 1, or to the empty dict under total
   * conflict.
   */
  lemma CombineProper(m1: Mass, m2: Mass)
    requires NonNegative(m1) && NonNegative(m2) && Total(m1) == 1.0 && Total(m2) == 1.0
    ensures NonNegative(CombineSpec(m1, m2).mass)
    ensures Total(CombineSpec(m1, m2).mass) == 1.0 || CombineSpec(m1, m2).mass == []
    ensures 0.0 <= CombineSpec(m1, m2).conflict <= 1.0
  {
    var c := Conjunctive(m1, m2);
    ConjunctiveBounds(m1, m2);
    CombineNormalised(m1, m2);
    if 1.0 - c.k != 0.0 {
      ScaledNonNegative(c.buckets, 1.0 - c.k);
    }
  }

  /** For proper inputs, k and the unnormalised buckets are non-negative and share out 1. */
  lemma ConjunctiveBounds(m1: Mass, m2: Mass)
    requires NonNegative(m1) && NonNegative(m2) && Total(m1) == 1.0 && Total(m2) == 1.0
    ensures var c := Conjunctive(m1, m2);
      NonNegative(c.buckets) && 0.0 <= c.k <= 1.0 && c.k + Total(c.buckets) == 1.0
  {
    var c := Conjunctive(m1, m2);
    ConjunctiveConserves(m1, m2);
    PairsNonNegative(Acc([], 0.0), m1, m2);
    SumWhereNonNegative(c.buckets, AnyKey);
  }

  lemma ScaledNonNegative(m: Mass, norm: real)
    requires NonNegative(m) && norm > 0.0
    ensures NonNegative(Scale(m, norm))
  {
    var r := Scale(m, norm);
    forall i | 0 <= i < |r| ensures r[i].w >= 0.0 {
      assert r[i].w == m[i].w / norm;
    }
  }

  /** Total conflict returns ({}, 1.0). */
  lemma CombineTotalConflict(m1: Mass, m2: Mass)
    requires Conjunctive(m1, m2).k == 1.0
    ensures CombineSpec(m1, m2) == Combined([], 1.0)
  {
  }

  // Symmetry, through a closed form of every bucket.

  /** The product a pair contributes to the bucket c (c = {} is the conflict). */
  function Cell(a: Focal, b: Focal, c: set<int>): real
  {
    if a.focal * b.focal == c then a.w * b.w else 0.0
  }

  function RowWeight(a: Focal, m2: Mass, c: set<int>): real
  {
    if |m2| == 0 then 0.0 else RowWeight(a, m2[..|m2| - 1], c) + Cell(a, m2[|m2| - 1], c)
  }

  function ColWeight(m1: Mass, b: Focal, c: set<int>): real
  {
    if |m1| == 0 then 0.0 else ColWeight(m1[..|m1| - 1], b, c) + Cell(m1[|m1| - 1], b, c)
  }

  /** Σ over all pairs (a, b) with a ∩ b = c of ma · mb. */
  function Weight(m1: Mass, m2: Mass, c: set<int>): real
  {
    if |m1| == 0 then 0.0 else Weight(m1[..|m1| - 1], m2, c) + RowWeight(m1[|m1| - 1], m2, c)
  }

  lemma {:induction false} RowClosedForm(acc: Acc, a: Focal, m2: Mass, c: set<int>)
    ensures c != {} ==> Get(Row(acc, a, m2).buckets, c) == Get(acc.buckets, c) + RowWeight(a, m2, c)
    ensures Row(acc, a, m2).k == acc.k + RowWeight(a, m2, {})
    decreases |m2|
  {
    if |m2| > 0 {
      var front := m2[..|m2| - 1];
      var prev := Row(acc, a, front);
      var b := m2[|m2| - 1];
      assert Row(acc, a, m2) == Step(prev, a, b);
      assert RowWeight(a, m2, c) == RowWeight(a, front, c) + Cell(a, b, c);
      assert RowWeight(a, m2, {}) == RowWeight(a, front, {}) + Cell(a, b, {});
      RowClosedForm(acc, a, front, c);
      if a.focal * b.focal == {} {
        StepConflict(prev, a, b);
      } else {
        StepAdds(prev, a, b);
        GetAdd(prev.buckets, a.focal * b.focal, a.w * b.w, c);
      }
    }
  }

  lemma {:induction false} PairsClosedForm(acc: Acc, m1: Mass, m2: Mass, c: set<int>)
    ensures c != {} ==> Get(Pairs(acc, m1, m2).buckets, c) == Get(acc.buckets, c) + Weight(m1, m2, c)
    ensures Pairs(acc, m1, m2).k == acc.k + Weight(m1, m2, {})
    decreases |m1|
  {
    if |m1| > 0 {
      PairsClosedForm(acc, m1[..|m1| - 1], m2, c);
      RowClosedForm(Pairs(acc, m1[..|m1| - 1], m2), m1[|m1| - 1], m2, c);
    }
  }

  lemma {:induction false} WeightSnoc(m1: Mass, m2: Mass, c: set<int>)
    requires |m2| > 0
    ensures Weight(m1, m2, c) == Weight(m1, m2[..|m2| - 1], c) + ColWeight(m1, m2[|m2| - 1], c)
    decreases |m1|
  {
    if |m1| > 0 {
      WeightSnoc(m1[..|m1| - 1], m2, c);
    }
  }

  lemma {:induction false} ColIsRow(m1: Mass, b: Focal, c: set<int>)
    ensures ColWeight(m1, b, c) == RowWeight(b, m1, c)
    decreases |m1|
  {
    if |m1| > 0 {
      ColIsRow(m1[..|m1| - 1], b, c);
      assert m1[|m1| - 1].focal * b.focal == b.focal * m1[|m1| - 1].focal;
    }
  }

  lemma {:induction false} WeightEmptyRight(m1: Mass, c: set<int>)
    ensures Weight(m1, [], c) == 0.0
    decreases |m1|
  {
    if |m1| > 0 {
      WeightEmptyRight(m1[..|m1| - 1], c);
    }
  }

  lemma {:induction false} WeightSymmetric(m1: Mass, m2: Mass, c: set<int>)
    ensures Weight(m1, m2, c) == Weight(m2, m1, c)
    decreases |m2|
  {
    if |m2| == 0 {
      WeightEmptyRight(m1, c);
    } else {
      var n := |m2|;
      var b := m2[n - 1];
      var init := m2[..n - 1];
      WeightSnoc(m1, m2, c);
      WeightSymmetric(m1, init, c);
      ColIsRow(m1, b, c);
      assert Weight(m2, m1, c) == Weight(init, m1, c) + RowWeight(b, m1, c);
    }
  }

  /** The conflict, and the mass at every key, do not depend on the order. */
  lemma CombineSymmetric(m1: Mass, m2: Mass)
    ensures CombineSpec(m1, m2).conflict == CombineSpec(m2, m1).conflict
    ensures forall c :: Get(CombineSpec(m1, m2).mass, c) == Get(CombineSpec(m2, m1).mass, c)
  {
    ConflictSymmetric(m1, m2);
    forall c ensures Get(CombineSpec(m1, m2).mass, c) == Get(CombineSpec(m2, m1).mass, c) {
      BucketSymmetric(m1, m2, c);
    }
  }

  lemma ConflictSymmetric(m1: Mass, m2: Mass)
    ensures Conjunctive(m1, m2).k == Conjunctive(m2, m1).k
  {
    PairsClosedForm(Acc([], 0.0), m1, m2, {});
    PairsClosedForm(Acc([], 0.0), m2, m1, {});
    WeightSymmetric(m1, m2, {});
  }

  lemma BucketSymmetric(m1: Mass, m2: Mass, c: set<int>)
    ensures Get(CombineSpec(m1, m2).mass, c) == Get(CombineSpec(m2, m1).mass, c)
  {
    var c12 := Conjunctive(m1, m2);
    var c21 := Conjunctive(m2, m1);
    ConflictSymmetric(m1, m2);
    if 1.0 - c12.k != 0.0 {
      GetScale(c12.buckets, 1.0 - c12.k, c);
      GetScale(c21.buckets, 1.0 - c21.k, c);
      UnscaledSymmetric(m1, m2, c);
    }
  }

  /** Before normalising, every key holds the same mass in both orders. */
  lemma UnscaledSymmetric(m1: Mass, m2: Mass, c: set<int>)
    ensures Get(Conjunctive(m1, m2).buckets, c) == Get(Conjunctive(m2, m1).buckets, c)
  {
    if c == {} {
      EmptyKeyAbsent(m1, m2);
      EmptyKeyAbsent(m2, m1);
    } else {
      PairsClosedForm(Acc([], 0.0), m1, m2, c);
      PairsClosedForm(Acc([], 0.0), m2, m1, c);
      WeightSymmetric(m1, m2, c);
    }
  }

  lemma EmptyKeyAbsent(m1: Mass, m2: Mass)
    ensures Get(Conjunctive(m1, m2).buckets, {}) == 0.0
  {
    PairsShaped(Acc([], 0.0), m1, m2);
    GetAbsent(Conjunctive(m1, m2).buckets, {});
  }

  /** `cross_model_conflict`: the conflict k of combining the two masses. */
  function CrossModelConflict(a: Mass, b: Mass): real
  {
    CombineSpec(a, b).conflict
  }

  lemma CrossModelConflictSymmetric(a: Mass, b: Mass)
    ensures CrossModelConflict(a, b) == CrossModelConflict(b, a)
  {
    CombineSymmetric(a, b);
  }

  // ---------------------------------------------------------------------
  // aggregate_samples

  datatype Sample = Sample(abstained: bool, decodedScores: seq<int>)

  /** The masses of the samples that neither abstained nor have empty scores. */
  function SampleMasses(samples: seq<Sample>): (ms: seq<Mass>)
    ensures |ms| <= |samples|
  {
    if |samples| == 0 then []
    else
      var rest := SampleMasses(samples[..|samples| - 1]);
      var s := samples[|samples| - 1];
      if !s.abstained && |s.decodedScores| > 0 then rest + [MassFromVerdict(s.decodedScores)] else rest
  }

  /** The running (result, total_k) after folding `ms` into `start`. */
  function FoldMax(start: Mass, ms: seq<Mass>): Combined
  {
    if |ms| == 0 then Combined(start, 0.0)
    else
      var prev := FoldMax(start, ms[..|ms| - 1]);
      var step := CombineSpec(prev.mass, ms[|ms| - 1]);
      Combined(step.mass, if prev.conflict >= step.conflict then prev.conflict else step.conflict)
  }

  /** The conflicts of the successive combination steps. */
  function StepConflicts(start: Mass, ms: seq<Mass>): (r: seq<real>)
    ensures |r| == |ms|
  {
    if |ms| == 0 then []
    else StepConflicts(start, ms[..|ms| - 1]) + [CombineSpec(FoldMax(start, ms[..|ms| - 1]).mass, ms[|ms| - 1]).conflict]
  }

  function AggregateSpec(samples: seq<Sample>): Combined
  {
    var ms := SampleMasses(samples);
    if |ms| < 2 then Combined(if |ms| == 1 then ms[0] else [], 0.0)
    else FoldMax(ms[0], ms[1..])
  }

  /** The first loop of `aggregate_samples`: one mass per sample that gave scores. */
  method CollectMasses(samples: seq<Sample>) returns (masses: seq<Mass>)
    ensures masses == SampleMasses(samples)
  {
    masses := [];
    var i := 0;
    while i < |samples|
      invariant 0 <= i <= |samples|
      invariant masses == SampleMasses(samples[..i])
    {
      assert samples[..i + 1][..i] == samples[..i];
      if !samples[i].abstained && |samples[i].decodedScores| > 0 {
        masses := masses + [MassFromVerdict(samples[i].decodedScores)];
      }
      i := i + 1;
    }
    assert samples[..i] == samples;
  }

  method AggregateSamples(samples: seq<Sample>) returns (result: Mass, totalK: real)
    ensures Combined(result, totalK) == AggregateSpec(samples)
  {
    var masses := CollectMasses(samples);
    if |masses| < 2 {
      result := if |masses| == 1 then masses[0] else [];
      totalK := 0.0;
      return;
    }
    result := masses[0];
    totalK := 0.0;
    var rest := masses[1..];
    var j := 0;
    while j < |rest|
      invariant 0 <= j <= |rest|
      invariant Combined(result, totalK) == FoldMax(masses[0], rest[..j])
    {
      assert rest[..j + 1][..j] == rest[..j];
      var k;
      result, k := Combine(result, rest[j]);
      totalK := if totalK >= k then totalK else k;
      j := j + 1;
    }
    assert rest[..j] == rest;
  }

  /** The reported conflict is the largest step conflict (or 0), not a sum. */
  lemma {:induction false} FoldMaxIsMax(start: Mass, ms: seq<Mass>)
    ensures FoldMax(start, ms).conflict >= 0.0
    ensures forall i :: 0 <= i < |ms| ==> StepConflicts(start, ms)[i] <= FoldMax(start, ms).conflict
    ensures FoldMax(start, ms).conflict == 0.0
            || exists i :: 0 <= i < |ms| && FoldMax(start, ms).conflict == StepConflicts(start, ms)[i]
    decreases |ms|
  {
    if |ms| > 0 {
      var n := |ms|;
      FoldMaxIsMax(start, ms[..n - 1]);
      var prev := StepConflicts(start, ms[..n - 1]);
      assert StepConflicts(start, ms) == prev + [StepConflicts(start, ms)[n - 1]];
      var f := FoldMax(start, ms).conflict;
      if f != 0.0 && f != StepConflicts(start, ms)[n - 1] {
        assert f == FoldMax(start, ms[..n - 1]).conflict;
        var i :| 0 <= i < n - 1 && f == prev[i];
        assert f == StepConflicts(start, ms)[i];
      }
    }
  }

  /** Fewer than two usable samples: the single mass (or {}) and conflict 0. */
  lemma AggregateFew(samples: seq<Sample>)
    requires |SampleMasses(samples)| < 2
    ensures AggregateSpec(samples).conflict == 0.0
    ensures |SampleMasses(samples)| == 0 ==> AggregateSpec(samples).mass == []
    ensures |SampleMasses(samples)| == 1 ==> AggregateSpec(samples).mass == SampleMasses(samples)[0]
  {
  }

  /** Abstained samples and samples without scores are dropped, and only those. */
  lemma {:induction false} SampleMassesDrop(samples: seq<Sample>)
    ensures |SampleMasses(samples)| == |samples| - |UnusableIndices(samples)|
    decreases |samples|
  {
    if |samples| > 0 {
      var n := |samples|;
      SampleMassesDrop(samples[..n - 1]);
      var s := samples[n - 1];
      if s.abstained || |s.decodedScores| == 0 {
        assert UnusableIndices(samples) == UnusableIndices(samples[..n - 1]) + {n - 1};
      } else {
        assert UnusableIndices(samples) == UnusableIndices(samples[..n - 1]);
      }
    }
  }

  /** Positions of the samples aggregate_samples ignores. */
  function UnusableIndices(samples: seq<Sample>): set<int>
  {
    set i | 0 <= i < |samples| && (samples[i].abstained || |samples[i].decodedScores| == 0)
  }

  // ---------------------------------------------------------------------
  // Belief and plausibility

  /** Bel(H) = Σ m(A) over A ⊆ H. */
  function Belief(m: Mass, h: set<int>): real
  {
    SumWhere(m, SubsetOf(h))
  }

  /** Pl(H) = 1 − Bel(Θ − H). */
  function Plausibility(m: Mass, h: set<int>, frame: set<int>): real
  {
    1.0 - Belief(m, frame - h)
  }

  /** Pl({s}) − Bel({s}). */
  function UncertaintyGap(m: Mass, stage: int, frame: set<int>): real
  {
    Plausibility(m, {stage}, frame) - Belief(m, {stage})
  }

  /** Belief is monotone in the hypothesis. */
  lemma BeliefMonotone(m: Mass, h1: set<int>, h2: set<int>)
    requires NonNegative(m) && h1 <= h2
    ensures Belief(m, h1) <= Belief(m, h2)
  {
    SumWhereMonotone(m, SubsetOf(h1), SubsetOf(h2));
  }

  /** For a normalised mass with no empty key, Bel(H) ≤ Pl(H). */
  lemma BeliefBelowPlausibility(m: Mass, h: set<int>, frame: set<int>)
    requires NonNegative(m) && NoEmptyKey(m) && Total(m) == 1.0
    ensures Belief(m, h) <= Plausibility(m, h, frame)
    ensures Plausibility(m, h, frame) <= 1.0
  {
    var p := SubsetOf(h);
    var q := SubsetOf(frame - h);
    forall i | 0 <= i < |m| ensures !(Holds(p, m[i].focal) && Holds(q, m[i].focal)) {
      OnlyEmptyInBoth(m[i].focal, h, frame);
    }
    SumWhereDisjoint(m, p, q);
    SumWhereNonNegative(m, q);
  }

  lemma OnlyEmptyInBoth(a: set<int>, h: set<int>, frame: set<int>)
    ensures a <= h && a <= frame - h ==> a == {}
  {
    assert h * (frame - h) == {};
  }

  lemma UncertaintyGapNonNegative(m: Mass, stage: int, frame: set<int>)
    requires NonNegative(m) && NoEmptyKey(m) && Total(m) == 1.0
    ensures UncertaintyGap(m, stage, frame) >= 0.0
  {
    BeliefBelowPlausibility(m, {stage}, frame);
  }
}
