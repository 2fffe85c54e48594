/**
 * The engine-side Dempster-Shafer helpers: a categorical mass from a
 * verdict, and Dempster's rule over masses whose focal sets are encoded
 * as comma-joined keys of a JavaScript Map.
 */
module DstTs {
  import opened Wrappers
  import opened JsStrings

  /** One Map entry: the comma-joined focal set and its mass. */
  datatype Entry = Entry(key: string, mass: real)

  /** A JavaScript quotient: finite, or Infinity/NaN after a division by zero. */
  datatype Quotient = Finite(v: real) | NonFinite

  datatype Scaled = Scaled(key: string, value: Quotient)

  /** A Map in insertion order. */
  type TsMass = seq<Entry>

  predicate DistinctKeys(m: TsMass)
  {
    forall i, j :: 0 <= i < j < |m| ==> m[i].key != m[j].key
  }

  function Keys(m: TsMass): set<string>
  {
    set e | e in m :: e.key
  }

  function Total(m: TsMass): real
  {
    if |m| == 0 then 0.0 else Total(m[..|m| - 1]) + m[|m| - 1].mass
  }

  lemma {:induction false} TotalAppend(x: TsMass, y: TsMass)
    ensures Total(x + y) == Total(x) + Total(y)
  {
    if |y| > 0 {
      assert (x + y)[..|x + y| - 1] == x + y[..|y| - 1];
      TotalAppend(x, y[..|y| - 1]);
    } else {
      assert x + y == x;
    }
  }

  lemma TotalCons(e: Entry, m: TsMass)
    ensures Total([e] + m) == e.mass + Total(m)
  {
    TotalAppend([e], m);
    assert [e][..0] == [];
  }

  predicate NonNegative(m: TsMass)
  {
    forall i :: 0 <= i < |m| ==> m[i].mass >= 0.0
  }

  /** `m.get(key) ?? 0`. */
  function Get(m: TsMass, key: string): (r: real)
    ensures NonNegative(m) ==> r >= 0.0
  {
    if |m| == 0 then 0.0 else if m[0].key == key then m[0].mass else Get(m[1..], key)
  }

  /** `m.set(key, v)`: an existing key keeps its place, a new key goes last. */
  function Put(m: TsMass, key: string, v: real): TsMass
  {
    if |m| == 0 then [Entry(key, v)]
    else if m[0].key == key then [Entry(key, v)] + m[1..]
    else [m[0]] + Put(m[1..], key, v)
  }

  /** The keys of a non-empty mass: the first key and the keys of the rest. */
  lemma KeysCons(m: TsMass)
    requires |m| > 0
    ensures Keys(m) == {m[0].key} + Keys(m[1..])
  {
    assert m == [m[0]] + m[1..];
  }

  /** The keys after `set` are the old keys plus the new one; a known key keeps the size. */
  lemma PutKeys(m: TsMass, key: string, v: real)
    ensures Keys(Put(m, key, v)) == Keys(m) + {key}
    ensures forall i :: 0 <= i < |Put(m, key, v)| ==> Put(m, key, v)[i].key == key || Put(m, key, v)[i] in m
    ensures key in Keys(m) ==> |Put(m, key, v)| == |m|
    ensures key !in Keys(m) ==> Put(m, key, v) == m + [Entry(key, v)]
  {
    PutKeySet(m, key, v);
    PutEntriesFrom(m, key, v);
    PutShape(m, key, v);
  }

  lemma {:induction false} PutKeySet(m: TsMass, key: string, v: real)
    ensures Keys(Put(m, key, v)) == Keys(m) + {key}
  {
    if |m| > 0 {
      KeysCons(m);
      KeysCons(Put(m, key, v));
      if m[0].key != key {
        PutKeySet(m[1..], key, v);
        assert Put(m, key, v)[1..] == Put(m[1..], key, v);
      } else {
        assert Put(m, key, v)[1..] == m[1..];
      }
    }
  }

  lemma {:induction false} PutEntriesFrom(m: TsMass, key: string, v: real)
    ensures forall i :: 0 <= i < |Put(m, key, v)| ==> Put(m, key, v)[i].key == key || Put(m, key, v)[i] in m
  {
    if |m| > 0 && m[0].key != key {
      PutEntriesFrom(m[1..], key, v);
      var p := Put(m, key, v);
      forall i | 0 <= i < |p|
        ensures p[i].key == key || p[i] in m
      {
        if i > 0 {
          assert p[i] == Put(m[1..], key, v)[i - 1];
          assert m == [m[0]] + m[1..];
        }
      }
    }
  }

  lemma {:induction false} PutShape(m: TsMass, key: string, v: real)
    ensures key in Keys(m) ==> |Put(m, key, v)| == |m|
    ensures key !in Keys(m) ==> Put(m, key, v) == m + [Entry(key, v)]
  {
    if |m| > 0 {
      KeysCons(m);
      if m[0].key != key {
        PutShape(m[1..], key, v);
        assert m == [m[0]] + m[1..];
      }
    }
  }

  lemma {:induction false} PutGet(m: TsMass, key: string, v: real, other: string)
    ensures Get(Put(m, key, v), other) == if other == key then v else Get(m, other)
  {
    if |m| > 0 && m[0].key != key {
      PutGet(m[1..], key, v, other);
    }
  }

  lemma {:induction false} PutDistinct(m: TsMass, key: string, v: real)
    requires DistinctKeys(m)
    ensures DistinctKeys(Put(m, key, v))
  {
    if |m| > 0 && m[0].key != key {
      PutDistinct(m[1..], key, v);
      PutKeys(m[1..], key, v);
      var r := Put(m[1..], key, v);
      forall j | 0 <= j < |r| ensures r[j].key != m[0].key {
        if r[j].key != key {
          assert r[j] in m[1..];
          var t :| 0 <= t < |m[1..]| && m[1..][t] == r[j];
          assert m[t + 1] == r[j];
        }
      }
    }
  }

  /** Adding x to the mass at a key adds x to the total. */
  lemma {:induction false} PutTotal(m: TsMass, key: string, x: real)
    ensures Total(Put(m, key, Get(m, key) + x)) == Total(m) + x
  {
    if |m| == 0 {
      TotalCons(Entry(key, x), []);
    } else {
      assert m == [m[0]] + m[1..];
      TotalCons(m[0], m[1..]);
      if m[0].key == key {
        TotalCons(Entry(key, m[0].mass + x), m[1..]);
      } else {
        PutTotal(m[1..], key, x);
        TotalCons(m[0], Put(m[1..], key, Get(m[1..], key) + x));
      }
    }
  }

  lemma {:induction false} PutNonNegative(m: TsMass, key: string, v: real)
    requires NonNegative(m) && v >= 0.0
    ensures NonNegative(Put(m, key, v))
  {
    if |m| > 0 && m[0].key != key {
      PutNonNegative(m[1..], key, v);
    }
  }

  // ---------------------------------------------------------------------
  // Keys as focal sets

  /** `xs.map(f)`. */
  function MapSeq<A, B>(f: A -> B, xs: seq<A>): (r: seq<B>)
    ensures |r| == |xs|
    ensures forall i :: 0 <= i < |xs| ==> r[i] == f(xs[i])
  {
    seq(|xs|, i requires 0 <= i < |xs| => f(xs[i]))
  }

  lemma MapSeqAppend<A, B>(f: A -> B, x: seq<A>, y: seq<A>)
    ensures MapSeq(f, x + y) == MapSeq(f, x) + MapSeq(f, y)
  {
  }

  /** Taking one element out of a sequence takes it out of its multiset. */
  lemma RemoveAt<A>(ys: seq<A>, j: nat)
    requires j < |ys|
    ensures multiset(ys) == multiset(ys[..j] + ys[j + 1..]) + multiset{ys[j]}
  {
    assert ys == ys[..j] + [ys[j]] + ys[j + 1..];
  }

  /** Taking an element out before mapping is taking its image out after. */
  lemma MapRemoveAt<A, B>(f: A -> B, ys: seq<A>, j: nat)
    requires j < |ys|
    ensures multiset(MapSeq(f, ys)) == multiset(MapSeq(f, ys[..j] + ys[j + 1..])) + multiset{f(ys[j])}
  {
    var m := MapSeq(f, ys);
    RemoveAt(m, j);
    assert m[..j] + m[j + 1..] == MapSeq(f, ys[..j] + ys[j + 1..]);
  }

  lemma CancelOne<A>(a: multiset<A>, b: multiset<A>, x: A)
    requires a + multiset{x} == b + multiset{x}
    ensures a == b
  {
    assert a == (a + multiset{x}) - multiset{x};
    assert b == (b + multiset{x}) - multiset{x};
  }

  lemma MapRemoveHead<A, B>(f: A -> B, xs: seq<A>)
    requires |xs| > 0
    ensures multiset(MapSeq(f, xs)) == multiset(MapSeq(f, xs[1..])) + multiset{f(xs[0])}
  {
    var m := MapSeq(f, xs);
    assert m == [m[0]] + m[1..];
    assert m[1..] == MapSeq(f, xs[1..]);
  }

  /** Matching the head of `xs` with `ys[j]` leaves permutations of each other behind. */
  lemma RestPermutation<A>(xs: seq<A>, ys: seq<A>, j: nat)
    requires multiset(xs) == multiset(ys) && |xs| > 0
    requires j < |ys| && ys[j] == xs[0]
    ensures multiset(xs[1..]) == multiset(ys[..j] + ys[j + 1..])
  {
    RemoveAt(xs, 0);
    RemoveAt(ys, j);
    assert xs[..0] + xs[1..] == xs[1..];
    CancelOne(multiset(xs[1..]), multiset(ys[..j] + ys[j + 1..]), xs[0]);
  }

  /** Putting the matched pair back on both mapped remainders. */
  lemma MapRestored<A, B>(f: A -> B, xs: seq<A>, ys: seq<A>, j: nat)
    requires |xs| > 0 && j < |ys| && ys[j] == xs[0]
    requires multiset(MapSeq(f, xs[1..])) == multiset(MapSeq(f, ys[..j] + ys[j + 1..]))
    ensures multiset(MapSeq(f, xs)) == multiset(MapSeq(f, ys))
  {
    MapRemoveHead(f, xs);
    MapRemoveAt(f, ys, j);
  }

  /** Mapping a permutation gives a permutation. */
  lemma {:induction false} MapSeqMultiset<A, B>(f: A -> B, xs: seq<A>, ys: seq<A>)
    requires multiset(xs) == multiset(ys)
    ensures multiset(MapSeq(f, xs)) == multiset(MapSeq(f, ys))
  {
    if |xs| > 0 {
      assert xs[0] in multiset(ys);
      var j :| 0 <= j < |ys| && ys[j] == xs[0];
      RestPermutation(xs, ys, j);
      MapSeqMultiset(f, xs[1..], ys[..j] + ys[j + 1..]);
      MapRestored(f, xs, ys, j);
    }
  }

  /** `xs.map(String)`. */
  function Strings(xs: seq<JsNumber>): (r: seq<string>)
    ensures |r| == |xs|
    ensures forall i :: 0 <= i < |xs| ==> r[i] == NumberToString(xs[i])
  {
    MapSeq(NumberToString, xs)
  }

  /** Printed numbers hold no comma. */
  lemma StringsNoCommas(xs: seq<JsNumber>)
    ensures NoSep(Strings(xs), ',')
  {
  }

  /** `ss.map(Number)`. */
  function Numbers(ss: seq<string>): (r: seq<JsNumber>)
    ensures |r| == |ss|
    ensures forall i :: 0 <= i < |ss| ==> r[i] == ParseNumber(ss[i])
  {
    MapSeq(ParseNumber, ss)
  }

  /** `[...new Set(xs)]`: first occurrences, in order. */
  function Dedupe(xs: seq<JsNumber>): seq<JsNumber>
  {
    if |xs| == 0 then []
    else
      var d := Dedupe(xs[..|xs| - 1]);
      if xs[|xs| - 1] in d then d else d + [xs[|xs| - 1]]
  }

  /** The Set holds exactly the listed numbers, each once. */
  lemma {:induction false} DedupeMembers(xs: seq<JsNumber>)
    ensures forall x :: x in Dedupe(xs) <==> x in xs
    ensures Distinct(Dedupe(xs))
  {
    if |xs| > 0 {
      DedupeMembers(xs[..|xs| - 1]);
      assert xs == xs[..|xs| - 1] + [xs[|xs| - 1]];
    }
  }

  predicate Distinct<T(==)>(xs: seq<T>)
  {
    forall i, j :: 0 <= i < j < |xs| ==> xs[i] != xs[j]
  }

  lemma {:induction false} DedupeDistinct(xs: seq<JsNumber>)
    requires Distinct(xs)
    ensures Dedupe(xs) == xs
  {
    if |xs| > 0 {
      var p := xs[..|xs| - 1];
      DedupeDistinct(p);
      assert xs[|xs| - 1] !in p by {
        forall t | 0 <= t < |p| ensures p[t] != xs[|xs| - 1] {
          assert p[t] == xs[t];
        }
      }
      assert xs == p + [xs[|xs| - 1]];
    }
  }

  /** `new Set(key.split(",").map(Number))`, in insertion order. */
  function Tokens(key: string): seq<JsNumber>
  {
    Dedupe(Numbers(Split(key, ',')))
  }

  /** `[...setA].filter((x) => setB.has(x))`. */
  function Meet(xs: seq<JsNumber>, ys: seq<JsNumber>): seq<JsNumber>
  {
    if |xs| == 0 then []
    else if xs[0] in ys then [xs[0]] + Meet(xs[1..], ys) else Meet(xs[1..], ys)
  }

  /** The filter keeps exactly the numbers both sets hold. */
  lemma {:induction false} MeetMembers(xs: seq<JsNumber>, ys: seq<JsNumber>)
    ensures forall x :: x in Meet(xs, ys) <==> x in xs && x in ys
  {
    if |xs| > 0 {
      MeetMembers(xs[1..], ys);
      assert xs == [xs[0]] + xs[1..];
    }
  }

  /** `xs.sort().join(",")`: the default sort compares the printed numbers. */
  function KeyOf(xs: seq<JsNumber>): string
  {
    Join(SortStrings(Strings(xs)), ",")
  }

  // ---------------------------------------------------------------------
  // massFromVerdict

  function IntOf(i: int): JsNumber { Int(i) }

  function Ints(scores: seq<int>): (r: seq<JsNumber>)
    ensures |r| == |scores|
    ensures forall i :: 0 <= i < |r| ==> r[i] == Int(scores[i])
  {
    MapSeq(IntOf, scores)
  }

  /** A categorical mass: all of it on the key of the verdict's scores. */
  function MassFromVerdict(decodedScores: seq<int>): (r: TsMass)
    ensures |r| == 1 && r[0].mass == 1.0 && Total(r) == 1.0
  {
    [Entry(KeyOf(Ints(decodedScores)), 1.0)]
  }

  // ---------------------------------------------------------------------
  // dempsterCombine

  /**
   * The key of the intersection of two focal sets, or None when they are
   * disjoint.
   */
  function MeetKey(a: string, b: string): Option<string>
  {
    var meet := Meet(Tokens(a), Tokens(b));
    if |meet| == 0 then None else Some(KeyOf(meet))
  }

  /**
   * How two keys meet. The loops below are stated for any such function,
   * so that conservation does not depend on how keys are parsed; the
   * engine uses MeetKey.
   */
  type Meeting = (string, string) -> Option<string>

  datatype Acc = Acc(combined: TsMass, k: real)

  /** Where the product of a pair goes: to the conflict, or added at the key. */
  function Deposit(acc: Acc, target: Option<string>, x: real): Acc
  {
    match target
    case None => Acc(acc.combined, acc.k + x)
    case Some(key) => Acc(Put(acc.combined, key, Get(acc.combined, key) + x), acc.k)
  }

  /** One (a, b) pair of the nested loop. */
  function Step(acc: Acc, a: Entry, b: Entry, meet: Meeting): Acc
  {
    Deposit(acc, meet(a.key, b.key), a.mass * b.mass)
  }

  /** The inner loop over m2 for one entry a of m1. */
  function Row(acc: Acc, a: Entry, m2: TsMass, meet: Meeting): Acc
  {
    if |m2| == 0 then acc else Step(Row(acc, a, m2[..|m2| - 1], meet), a, m2[|m2| - 1], meet)
  }

  /** Both loops: the unnormalised combination and the conflict k. */
  function Pairs(m1: TsMass, m2: TsMass, meet: Meeting): Acc
  {
    if |m1| == 0 then Acc([], 0.0)
    else Row(Pairs(m1[..|m1| - 1], m2, meet), m1[|m1| - 1], m2, meet)
  }

  /** The normalising loop: every value divided by 1 - k. */
  function Normalise(c: TsMass, norm: real): (r: seq<Scaled>)
    ensures |r| == |c|
  {
    seq(|c|, i requires 0 <= i < |c| =>
      Scaled(c[i].key, if norm == 0.0 then NonFinite else Finite(c[i].mass / norm)))
  }

  /** The result of `dempsterCombine`. */
  function Combination(m1: TsMass, m2: TsMass): (seq<Scaled>, real)
  {
    var p := Pairs(m1, m2, MeetKey);
    (Normalise(p.combined, 1.0 - p.k), p.k)
  }

  lemma StepUnfold(acc: Acc, a: Entry, b: Entry, meet: Meeting)
    ensures Step(acc, a, b, meet) == Deposit(acc, meet(a.key, b.key), a.mass * b.mass)
  {
    var t := meet(a.key, b.key);
    if t.Some? {
      assert Deposit(acc, t, a.mass * b.mass)
          == Acc(Put(acc.combined, t.value, Get(acc.combined, t.value) + a.mass * b.mass), acc.k);
    }
  }

  lemma RowPrefix(acc: Acc, a: Entry, m2: TsMass, meet: Meeting, j: nat)
    requires j < |m2|
    ensures Row(acc, a, m2[..j + 1], meet) == Step(Row(acc, a, m2[..j], meet), a, m2[j], meet)
  {
    assert m2[..j + 1][..j] == m2[..j];
  }

  lemma PairsPrefix(m1: TsMass, m2: TsMass, meet: Meeting, i: nat)
    requires i < |m1|
    ensures Pairs(m1[..i + 1], m2, meet) == Row(Pairs(m1[..i], m2, meet), m1[i], m2, meet)
  {
    assert m1[..i + 1][..i] == m1[..i];
  }

  lemma NormalisePrefix(c: TsMass, norm: real, n: nat)
    requires n < |c|
    ensures Normalise(c[..n + 1], norm) == Normalise(c[..n], norm) + [Normalise(c, norm)[n]]
  {
    var l := Normalise(c[..n + 1], norm);
    var r := Normalise(c[..n], norm) + [Normalise(c, norm)[n]];
    assert |l| == |r|;
    forall t | 0 <= t < |l| ensures l[t] == r[t] {
      if t < n {
        assert c[..n + 1][t] == c[..n][t];
      }
    }
  }

  /** `dempsterCombine`: both loops, then the normalising loop. */
  method DempsterCombine(m1: TsMass, m2: TsMass) returns (combined: seq<Scaled>, conflict: real)
    ensures (combined, conflict) == Combination(m1, m2)
  {
    var acc: TsMass := [];
    var k := 0.0;
    var i := 0;
    while i < |m1|
      invariant 0 <= i <= |m1|
      invariant Acc(acc, k) == Pairs(m1[..i], m2, MeetKey)
    {
      acc, k := CombineRow(acc, k, m1[i], m2);
      PairsPrefix(m1, m2, MeetKey, i);
      i := i + 1;
    }
    assert m1[..i] == m1;
    conflict := k;
    combined := Normalised(acc, 1.0 - k);
  }

  /** One pass of the inner loop: the product goes to k, or is added at the meeting key. */
  method CombinePair(acc0: TsMass, k0: real, a: Entry, b: Entry) returns (acc: TsMass, k: real)
    ensures Acc(acc, k) == Step(Acc(acc0, k0), a, b, MeetKey)
  {
    acc, k := acc0, k0;
    var meet := Meet(Tokens(a.key), Tokens(b.key));
    if |meet| == 0 {
      k := k + a.mass * b.mass;
      assert MeetKey(a.key, b.key) == None;
    } else {
      var key := KeyOf(meet);
      acc := Put(acc, key, Get(acc, key) + a.mass * b.mass);
      assert MeetKey(a.key, b.key) == Some(key);
    }
    StepUnfold(Acc(acc0, k0), a, b, MeetKey);
  }

  /** The inner loop of `dempsterCombine` for one entry a of m1. */
  method CombineRow(acc0: TsMass, k0: real, a: Entry, m2: TsMass) returns (acc: TsMass, k: real)
    ensures Acc(acc, k) == Row(Acc(acc0, k0), a, m2, MeetKey)
  {
    acc, k := acc0, k0;
    var j := 0;
    while j < |m2|
      invariant 0 <= j <= |m2|
      invariant Acc(acc, k) == Row(Acc(acc0, k0), a, m2[..j], MeetKey)
    {
      acc, k := CombinePair(acc, k, a, m2[j]);
      RowPrefix(Acc(acc0, k0), a, m2, MeetKey, j);
      j := j + 1;
    }
    assert m2[..j] == m2;
  }

  /** The normalising loop of `dempsterCombine`. */
  method Normalised(acc: TsMass, norm: real) returns (combined: seq<Scaled>)
    ensures combined == Normalise(acc, norm)
  {
    combined := [];
    var n := 0;
    while n < |acc|
      invariant 0 <= n <= |acc|
      invariant combined == Normalise(acc[..n], norm)
    {
      var value := if norm == 0.0 then NonFinite else Finite(acc[n].mass / norm);
      NormalisePrefix(acc, norm, n);
      combined := combined + [Scaled(acc[n].key, value)];
      n := n + 1;
    }
    assert acc[..n] == acc;
  }

  // ---------------------------------------------------------------------
  // Conservation and normalisation

  lemma Distribute(x: real, y: real, z: real, sum: real)
    requires sum == y + z
    ensures x * sum == x * y + x * z
  {
  }

  lemma DepositConserves(acc: Acc, target: Option<string>, x: real)
    ensures Total(Deposit(acc, target, x).combined) + Deposit(acc, target, x).k
         == Total(acc.combined) + acc.k + x
  {
    if target.Some? {
      PutTotal(acc.combined, target.value, x);
    }
  }

  /** The sum of a.mass * b.mass over the inner loop. */
  function RowMass(a: Entry, m2: TsMass): real
  {
    if |m2| == 0 then 0.0 else RowMass(a, m2[..|m2| - 1]) + a.mass * m2[|m2| - 1].mass
  }

  /** The sum of a.mass * b.mass over both loops. */
  function PairsMass(m1: TsMass, m2: TsMass): real
  {
    if |m1| == 0 then 0.0 else PairsMass(m1[..|m1| - 1], m2) + RowMass(m1[|m1| - 1], m2)
  }

  lemma {:induction false} RowMassProduct(a: Entry, m2: TsMass)
    ensures RowMass(a, m2) == a.mass * Total(m2)
  {
    if |m2| > 0 {
      var p := m2[..|m2| - 1];
      RowMassProduct(a, p);
      Distribute(a.mass, Total(p), m2[|m2| - 1].mass, Total(m2));
    }
  }

  lemma {:induction false} PairsMassProduct(m1: TsMass, m2: TsMass)
    ensures PairsMass(m1, m2) == Total(m1) * Total(m2)
  {
    if |m1| > 0 {
      var p := m1[..|m1| - 1];
      PairsMassProduct(p, m2);
      RowMassProduct(m1[|m1| - 1], m2);
      Distribute(Total(m2), Total(p), m1[|m1| - 1].mass, Total(m1));
    }
  }

  lemma {:induction false} RowConserves(acc: Acc, a: Entry, m2: TsMass, meet: Meeting)
    ensures Total(Row(acc, a, m2, meet).combined) + Row(acc, a, m2, meet).k
         == Total(acc.combined) + acc.k + RowMass(a, m2)
  {
    if |m2| > 0 {
      var init, b := m2[..|m2| - 1], m2[|m2| - 1];
      var x := a.mass * b.mass;
      var r := Row(acc, a, init, meet);
      RowConserves(acc, a, init, meet);
      DepositConserves(r, meet(a.key, b.key), x);
      assert Row(acc, a, m2, meet) == Step(r, a, b, meet);
      StepUnfold(r, a, b, meet);
      RowMassLast(a, m2, init, b, x);
    }
  }

  lemma RowMassLast(a: Entry, m2: TsMass, init: TsMass, b: Entry, x: real)
    requires |m2| > 0 && init == m2[..|m2| - 1] && b == m2[|m2| - 1] && x == a.mass * b.mass
    ensures RowMass(a, m2) == RowMass(a, init) + x
  {
  }

  lemma {:induction false} PairsConserveMass(m1: TsMass, m2: TsMass, meet: Meeting)
    ensures Total(Pairs(m1, m2, meet).combined) + Pairs(m1, m2, meet).k == PairsMass(m1, m2)
  {
    if |m1| > 0 {
      PairsConserveMass(m1[..|m1| - 1], m2, meet);
      RowConserves(Pairs(m1[..|m1| - 1], m2, meet), m1[|m1| - 1], m2, meet);
    }
  }

  /**
   * Conservation: whatever the keys, the combined mass and the conflict
   * share out the product of the two totals.
   */
  lemma PairsConserve(m1: TsMass, m2: TsMass, meet: Meeting)
    ensures Total(Pairs(m1, m2, meet).combined) + Pairs(m1, m2, meet).k == Total(m1) * Total(m2)
  {
    PairsConserveMass(m1, m2, meet);
    PairsMassProduct(m1, m2);
  }

  predicate AccOk(acc: Acc)
  {
    DistinctKeys(acc.combined) && NonNegative(acc.combined) && acc.k >= 0.0
  }

  lemma DepositOk(acc: Acc, target: Option<string>, x: real)
    requires AccOk(acc) && x >= 0.0
    ensures AccOk(Deposit(acc, target, x))
  {
    if target.Some? {
      var key := target.value;
      PutDistinct(acc.combined, key, Get(acc.combined, key) + x);
      PutNonNegative(acc.combined, key, Get(acc.combined, key) + x);
    }
  }

  lemma {:induction false} RowOk(acc: Acc, a: Entry, m2: TsMass, meet: Meeting)
    requires AccOk(acc) && a.mass >= 0.0 && NonNegative(m2)
    ensures AccOk(Row(acc, a, m2, meet))
  {
    if |m2| > 0 {
      var r := Row(acc, a, m2[..|m2| - 1], meet);
      var b := m2[|m2| - 1];
      RowOk(acc, a, m2[..|m2| - 1], meet);
      assert a.mass * b.mass >= 0.0;
      StepUnfold(r, a, b, meet);
      DepositOk(r, meet(a.key, b.key), a.mass * b.mass);
    }
  }

  /** The combined Map has one entry per key, non-negative masses and a non-negative conflict. */
  lemma {:induction false} PairsOk(m1: TsMass, m2: TsMass, meet: Meeting)
    requires NonNegative(m1) && NonNegative(m2)
    ensures AccOk(Pairs(m1, m2, meet))
  {
    if |m1| > 0 {
      PairsOk(m1[..|m1| - 1], m2, meet);
      RowOk(Pairs(m1[..|m1| - 1], m2, meet), m1[|m1| - 1], m2, meet);
    }
  }

  /** The sum of the finite normalised values. */
  function FiniteTotal(s: seq<Scaled>): real
  {
    if |s| == 0 then 0.0
    else (if s[0].value.Finite? then s[0].value.v else 0.0) + FiniteTotal(s[1..])
  }

  lemma {:induction false} NormaliseTotal(c: TsMass, norm: real)
    requires norm != 0.0
    ensures FiniteTotal(Normalise(c, norm)) == Total(c) / norm
  {
    if |c| > 0 {
      NormaliseTotal(c[1..], norm);
      assert c == [c[0]] + c[1..];
      TotalCons(c[0], c[1..]);
      assert Normalise(c, norm)[1..] == Normalise(c[1..], norm);
      assert c[0].mass / norm + Total(c[1..]) / norm == (c[0].mass + Total(c[1..])) / norm;
    }
  }

  /**
   * Two masses that each sum to 1 and conflict by less than 1 combine
   * into a mass that sums to 1, with a non-negative entry per key.
   */
  lemma PairsSumToOne(m1: TsMass, m2: TsMass, meet: Meeting)
    requires Total(m1) == 1.0 && Total(m2) == 1.0 && Pairs(m1, m2, meet).k != 1.0
    ensures FiniteTotal(Normalise(Pairs(m1, m2, meet).combined, 1.0 - Pairs(m1, m2, meet).k)) == 1.0
  {
    PairsConserve(m1, m2, meet);
    UnitProduct(Total(m1), Total(m2));
    NormalisedUnit(Pairs(m1, m2, meet).combined, Pairs(m1, m2, meet).k);
  }

  lemma CombinationSumsToOne(m1: TsMass, m2: TsMass)
    requires Total(m1) == 1.0 && Total(m2) == 1.0 && Combination(m1, m2).1 != 1.0
    ensures FiniteTotal(Combination(m1, m2).0) == 1.0
  {
    PairsSumToOne(m1, m2, MeetKey);
  }

  lemma NormalisedUnit(c: TsMass, k: real)
    requires Total(c) + k == 1.0 && k != 1.0
    ensures FiniteTotal(Normalise(c, 1.0 - k)) == 1.0
  {
    NormaliseTotal(c, 1.0 - k);
    DivideSelf(Total(c), 1.0 - k);
  }

  lemma UnitProduct(x: real, y: real)
    requires x == 1.0 && y == 1.0
    ensures x * y == 1.0
  {
  }

  lemma DivideSelf(x: real, y: real)
    requires x == y && y != 0.0
    ensures x / y == 1.0
  {
  }

  // ---------------------------------------------------------------------
  // What the keys mean

  /** The key of a verdict does not depend on the order of its scores. */
  lemma MassFromVerdictOrderFree(s: seq<int>, t: seq<int>)
    requires multiset(s) == multiset(t)
    ensures MassFromVerdict(s) == MassFromVerdict(t)
  {
    MapSeqMultiset(IntOf, s, t);
    MapSeqMultiset(NumberToString, Ints(s), Ints(t));
    SortStringsOrderInsensitive(Strings(Ints(s)), Strings(Ints(t)));
  }

  /** A sorted permutation of printed numbers parses back to the same numbers. */
  lemma NumbersOfPrinted(xs: seq<JsNumber>, printed: seq<string>)
    requires multiset(printed) == multiset(Strings(xs))
    ensures forall x :: x in Numbers(printed) <==> x in xs
    ensures Strings(Numbers(printed)) == printed
  {
    forall k | 0 <= k < |printed|
      ensures exists i :: 0 <= i < |xs| && printed[k] == NumberToString(xs[i])
    {
      assert printed[k] in multiset(Strings(xs));
      var i :| 0 <= i < |xs| && Strings(xs)[i] == printed[k];
      ParseNumberToString(xs[i]);
    }
    forall k | 0 <= k < |printed| ensures NumberToString(ParseNumber(printed[k])) == printed[k] {
      var i :| 0 <= i < |xs| && printed[k] == NumberToString(xs[i]);
      ParseNumberToString(xs[i]);
    }
    forall x | x in xs ensures x in Numbers(printed) {
      var i :| 0 <= i < |xs| && xs[i] == x;
      assert Strings(xs)[i] in multiset(printed);
      var k :| 0 <= k < |printed| && printed[k] == Strings(xs)[i];
      ParseNumberToString(x);
      assert Numbers(printed)[k] == x;
    }
    forall x | x in Numbers(printed) ensures x in xs {
      var k :| 0 <= k < |printed| && Numbers(printed)[k] == x;
      var i :| 0 <= i < |xs| && printed[k] == NumberToString(xs[i]);
      ParseNumberToString(xs[i]);
    }
  }

  /** A key splits into the sorted printed numbers it was joined from. */
  lemma SplitKey(xs: seq<JsNumber>)
    requires |xs| > 0
    ensures Split(KeyOf(xs), ',') == SortStrings(Strings(xs))
    ensures multiset(SortStrings(Strings(xs))) == multiset(Strings(xs))
    ensures SortedStrings(SortStrings(Strings(xs)))
  {
    var printed := SortStrings(Strings(xs));
    SortStringsCorrect(Strings(xs));
    StringsNoCommas(xs);
    forall k | 0 <= k < |printed| ensures ',' !in printed[k] {
      assert printed[k] in multiset(Strings(xs));
    }
    SplitJoin(printed, ',');
  }

  /** Reading a key back gives exactly the numbers it was made of. */
  lemma TokensOfKey(xs: seq<JsNumber>)
    requires |xs| > 0
    ensures forall x :: x in Tokens(KeyOf(xs)) <==> x in xs
  {
    SplitKey(xs);
    NumbersOfPrinted(xs, SortStrings(Strings(xs)));
    DedupeMembers(Numbers(SortStrings(Strings(xs))));
  }

  /** The key of a verdict stands for its set of scores. */
  lemma MassFromVerdictTokens(decodedScores: seq<int>)
    requires |decodedScores| > 0
    ensures forall x :: x in Tokens(MassFromVerdict(decodedScores)[0].key) <==>
      exists i :: 0 <= i < |decodedScores| && x == Int(decodedScores[i])
  {
    TokensOfKey(Ints(decodedScores));
  }

  /**
   * Two keys meet in None exactly when their focal sets are disjoint;
   * otherwise in the key of their intersection.
   */
  lemma MeetKeyIntersects(a: string, b: string)
    ensures MeetKey(a, b).None? <==> forall x :: x in Tokens(a) ==> x !in Tokens(b)
    ensures MeetKey(a, b).Some? ==>
      forall x :: x in Tokens(MeetKey(a, b).value) <==> x in Tokens(a) && x in Tokens(b)
  {
    var meet := Meet(Tokens(a), Tokens(b));
    MeetMembers(Tokens(a), Tokens(b));
    if |meet| > 0 {
      TokensOfKey(meet);
      assert meet[0] in Tokens(a) && meet[0] in Tokens(b);
    } else {
      forall x | x in Tokens(a) ensures x !in Tokens(b) {
        assert x !in meet;
      }
    }
  }

  // ---------------------------------------------------------------------
  // The engine's own examples

  lemma PrintedDigits()
    ensures IntToString(1) == "1" && IntToString(2) == "2" && IntToString(3) == "3"
  {
  }

  /** [2, 1] is keyed "1,2". */
  lemma MassFromVerdictExample()
    ensures MassFromVerdict([2, 1]) == [Entry("1,2", 1.0)]
  {
    PrintedDigits();
    assert Ints([2, 1]) == [Int(2), Int(1)];
    assert Strings([Int(2), Int(1)]) == ["2", "1"];
    assert SortStrings(["1"]) == ["1"];
    assert ["2", "1"][1..] == ["1"];
    assert SortStrings(["2", "1"]) == ["1", "2"];
    assert Join(["1", "2"], ",") == "1,2";
  }

  lemma TokensOfOne(i: int)
    ensures Tokens(IntToString(i)) == [Int(i)]
  {
    var t := IntToString(i);
    SplitPlain(t, ',');
    ParseIntToString(i);
    var n := Numbers(Split(t, ','));
    assert |n| == 1 && n[0] == ParseNumber(t);
    assert n == [Int(i)];
    assert n[..0] == [];
    assert Dedupe(n[..0]) == [];
  }

  lemma TokensOfTwo(i: int, j: int)
    requires i != j
    ensures Tokens(IntToString(i) + "," + IntToString(j)) == [Int(i), Int(j)]
  {
    var ti, tj := IntToString(i), IntToString(j);
    assert ti + "," + tj == ti + [','] + tj;
    SplitSep(ti, tj, ',');
    SplitPlain(tj, ',');
    var parts := Split(ti + "," + tj, ',');
    assert parts == [ti, tj];
    ParseIntToString(i);
    ParseIntToString(j);
    var n := Numbers(parts);
    assert |n| == 2 && n[0] == ParseNumber(ti) && n[1] == ParseNumber(tj);
    assert n == [Int(i), Int(j)];
    assert n[..1] == [Int(i)];
    assert n[..1][..0] == [];
    assert Dedupe(n[..1][..0]) == [];
    assert Dedupe(n[..1]) == [Int(i)];
  }

  /** One categorical mass on a single score combined with another. */
  lemma SingleStep(i: int, j: int)
    ensures Pairs([Entry(IntToString(i), 1.0)], [Entry(IntToString(j), 1.0)], MeetKey)
         == Step(Acc([], 0.0), Entry(IntToString(i), 1.0), Entry(IntToString(j), 1.0), MeetKey)
  {
    var m1, m2 := [Entry(IntToString(i), 1.0)], [Entry(IntToString(j), 1.0)];
    assert m1[..0] == [] && m2[..0] == [];
    assert Pairs(m1[..0], m2, MeetKey) == Acc([], 0.0);
    assert Row(Acc([], 0.0), m1[0], m2[..0], MeetKey) == Acc([], 0.0);
  }

  /** Identical singleton verdicts merge with no conflict ([1] with [1]). */
  lemma IdenticalSingletonsExample()
    ensures Combination(MassFromVerdict([1]), MassFromVerdict([1])) == ([Scaled("1", Finite(1.0))], 0.0)
  {
    PrintedDigits();
    assert Strings(Ints([1])) == ["1"];
    assert MassFromVerdict([1]) == [Entry("1", 1.0)];
    TokensOfOne(1);
    assert KeyOf([Int(1)]) == "1";
    assert MeetKey("1", "1") == Some("1");
    SingleStep(1, 1);
    StepUnfold(Acc([], 0.0), Entry("1", 1.0), Entry("1", 1.0), MeetKey);
    assert Pairs([Entry("1", 1.0)], [Entry("1", 1.0)], MeetKey) == Acc([Entry("1", 1.0)], 0.0);
    assert Normalise([Entry("1", 1.0)], 1.0) == [Scaled("1", Finite(1.0))];
  }

  /** Disjoint singleton verdicts conflict fully and leave nothing ([1] with [2]). */
  lemma DisjointSingletonsExample()
    ensures Combination(MassFromVerdict([1]), MassFromVerdict([2])) == ([], 1.0)
  {
    PrintedDigits();
    assert Strings(Ints([1])) == ["1"] && Strings(Ints([2])) == ["2"];
    assert MassFromVerdict([1]) == [Entry("1", 1.0)];
    assert MassFromVerdict([2]) == [Entry("2", 1.0)];
    TokensOfOne(1);
    TokensOfOne(2);
    assert MeetKey("1", "2") == None;
    SingleStep(1, 2);
    StepUnfold(Acc([], 0.0), Entry("1", 1.0), Entry("2", 1.0), MeetKey);
    assert Pairs([Entry("1", 1.0)], [Entry("2", 1.0)], MeetKey) == Acc([], 1.0);
  }

  lemma MassFromSortedPair(i: int, j: int)
    requires 0 <= i < j < 10
    ensures MassFromVerdict([i, j]) == [Entry(IntToString(i) + "," + IntToString(j), 1.0)]
  {
    var ti, tj := IntToString(i), IntToString(j);
    assert Strings(Ints([i, j])) == [ti, tj];
    SingleDigitOrder(i, j);
    SortSorted([ti, tj]);
    assert [ti, tj][1..] == [tj];
    assert Join([ti, tj], ",") == ti + "," + tj;
  }

  /** {i, j} and {j, l} meet in {j}. */
  lemma ChainMeets(i: int, j: int, l: int)
    requires i != j && j != l && i != l
    ensures MeetKey(IntToString(i) + "," + IntToString(j), IntToString(j) + "," + IntToString(l))
         == Some(IntToString(j))
  {
    TokensOfTwo(i, j);
    TokensOfTwo(j, l);
    var meet := Meet([Int(i), Int(j)], [Int(j), Int(l)]);
    assert [Int(i), Int(j)][1..] == [Int(j)];
    assert [Int(j)][1..] == [];
    assert Meet([Int(j)], [Int(j), Int(l)]) == [Int(j)];
    assert meet == [Int(j)];
    assert Strings([Int(j)]) == [IntToString(j)];
    assert SortStrings([IntToString(j)]) == [IntToString(j)];
  }

  /** Overlapping verdicts keep their intersection: {i, j} with {j, l} gives {j}. */
  lemma OverlappingVerdicts(i: int, j: int, l: int)
    requires 0 <= i < j < l < 10
    ensures Combination(MassFromVerdict([i, j]), MassFromVerdict([j, l]))
         == ([Scaled(IntToString(j), Finite(1.0))], 0.0)
  {
    MassFromSortedPair(i, j);
    MassFromSortedPair(j, l);
    ChainMeets(i, j, l);
    var a, b := Entry(IntToString(i) + "," + IntToString(j), 1.0), Entry(IntToString(j) + "," + IntToString(l), 1.0);
    var m1, m2 := [a], [b];
    assert m1[..0] == [] && m2[..0] == [];
    assert Pairs(m1[..0], m2, MeetKey) == Acc([], 0.0);
    assert Row(Acc([], 0.0), m1[0], m2[..0], MeetKey) == Acc([], 0.0);
    StepUnfold(Acc([], 0.0), a, b, MeetKey);
    assert Pairs(m1, m2, MeetKey) == Acc([Entry(IntToString(j), 1.0)], 0.0);
    assert Normalise([Entry(IntToString(j), 1.0)], 1.0) == [Scaled(IntToString(j), Finite(1.0))];
  }

  /** The engine's example: [1, 2] with [2, 3] keeps "2" without conflict. */
  lemma OverlappingVerdictsExample()
    ensures Combination(MassFromVerdict([1, 2]), MassFromVerdict([2, 3])) == ([Scaled("2", Finite(1.0))], 0.0)
  {
    OverlappingVerdicts(1, 2, 3);
    assert IntToString(2) == "2";
  }

  // ---------------------------------------------------------------------
  // Repeated scores

  /**
   * A verdict that repeats a score keeps the repeat in its key: [i, i] is
   * keyed "i,i" while [i] is keyed "i", and combining the mass of [i, i]
   * with itself moves all of it to the key "i", with no conflict.
   */
  lemma RepeatedScoreKeys(i: int)
    requires 0 <= i < 10
    ensures MassFromVerdict([i, i]) == [Entry(IntToString(i) + "," + IntToString(i), 1.0)]
    ensures MassFromVerdict([i]) == [Entry(IntToString(i), 1.0)]
    ensures MassFromVerdict([i, i]) != MassFromVerdict([i])
    ensures Combination(MassFromVerdict([i, i]), MassFromVerdict([i, i]))
         == ([Scaled(IntToString(i), Finite(1.0))], 0.0)
  {
    var t := IntToString(i);
    assert Strings(Ints([i, i])) == [t, t];
    assert Strings(Ints([i])) == [t];
    StrLeTotal(t, t);
    SortSorted([t, t]);
    assert [t, t][1..] == [t];
    assert Join([t, t], ",") == t + "," + t;
    assert |t + "," + t| != |t|;
    var key := t + "," + t;
    assert Tokens(key) == [Int(i)] by {
      SplitSep(t, t, ',');
      SplitPlain(t, ',');
      ParseIntToString(i);
      var n := Numbers(Split(key, ','));
      assert n == [Int(i), Int(i)];
      assert n[..1] == [Int(i)] && n[..1][..0] == [];
      assert Dedupe(n[..1][..0]) == [];
      assert Dedupe(n[..1]) == [Int(i)];
    }
    assert [Int(i)][1..] == [];
    assert Meet([Int(i)], [Int(i)]) == [Int(i)];
    assert Strings([Int(i)]) == [t];
    assert MeetKey(key, key) == Some(t);
    var e := Entry(key, 1.0);
    var m := [e];
    assert m[..0] == [];
    assert Pairs(m[..0], m, MeetKey) == Acc([], 0.0);
    assert Row(Acc([], 0.0), e, m[..0], MeetKey) == Acc([], 0.0);
    StepUnfold(Acc([], 0.0), e, e, MeetKey);
    assert Pairs(m, m, MeetKey) == Acc([Entry(t, 1.0)], 0.0);
    assert Normalise([Entry(t, 1.0)], 1.0) == [Scaled(t, Finite(1.0))];
  }

  /** The mass of [i, i] meets the mass of [i] on the key "i", with no conflict. */
  lemma RepeatedScoreMeetsSingle(i: int)
    requires 0 <= i < 10
    ensures Combination(MassFromVerdict([i, i]), MassFromVerdict([i]))
         == ([Scaled(IntToString(i), Finite(1.0))], 0.0)
  {
    RepeatedScoreKeys(i);
    var t := IntToString(i);
    var key := t + "," + t;
    ParseIntToString(i);
    assert Tokens(key) == [Int(i)] by {
      SplitSep(t, t, ',');
      SplitPlain(t, ',');
      var n := Numbers(Split(key, ','));
      assert n == [Int(i), Int(i)];
      assert n[..1] == [Int(i)] && n[..1][..0] == [];
      assert Dedupe(n[..1][..0]) == [];
      assert Dedupe(n[..1]) == [Int(i)];
    }
    assert Tokens(t) == [Int(i)] by {
      SplitPlain(t, ',');
      assert Numbers(Split(t, ',')) == [Int(i)];
      assert Dedupe([Int(i)][..0]) == [];
    }
    assert [Int(i)][1..] == [];
    assert Meet([Int(i)], [Int(i)]) == [Int(i)];
    assert Strings([Int(i)]) == [t];
    assert MeetKey(key, t) == Some(t);
    var e := Entry(key, 1.0);
    var f := Entry(t, 1.0);
    var m := [e];
    var m1 := [f];
    assert m[..0] == [];
    assert Pairs(m[..0], m1, MeetKey) == Acc([], 0.0);
    assert Row(Acc([], 0.0), e, m1[..0], MeetKey) == Acc([], 0.0);
    StepUnfold(Acc([], 0.0), e, f, MeetKey);
    assert Pairs(m, m1, MeetKey) == Acc([Entry(t, 1.0)], 0.0);
    assert Normalise([Entry(t, 1.0)], 1.0) == [Scaled(t, Finite(1.0))];
  }

  /** The mass of a verdict keyed by its set of scores, each score once. */
  function MassFromScoreSet(decodedScores: seq<int>): (r: TsMass)
    ensures |r| == 1 && r[0].mass == 1.0 && Total(r) == 1.0
  {
    [Entry(KeyOf(Dedupe(Ints(decodedScores))), 1.0)]
  }

  lemma {:induction false} DistinctCount<T>(x: seq<T>)
    requires Distinct(x)
    ensures forall v :: multiset(x)[v] == if v in x then 1 else 0
  {
    if |x| > 0 {
      DistinctCount(x[1..]);
      assert x == [x[0]] + x[1..];
      assert x[0] !in x[1..] by {
        forall t | 0 <= t < |x[1..]| ensures x[1..][t] != x[0] {
          assert x[1..][t] == x[t + 1];
        }
      }
    }
  }

  lemma CountDistinct<T>(x: seq<T>)
    requires forall v :: multiset(x)[v] <= 1
    ensures Distinct(x)
  {
    forall p, q | 0 <= p < q < |x| ensures x[p] != x[q] {
      assert x == x[..q] + [x[q]] + x[q + 1..];
      assert x[p] in x[..q];
      assert multiset(x)[x[q]] >= multiset(x[..q])[x[q]] + 1;
    }
  }

  lemma PermutationDistinct<T>(x: seq<T>, y: seq<T>)
    requires Distinct(x) && multiset(x) == multiset(y)
    ensures Distinct(y)
  {
    DistinctCount(x);
    CountDistinct(y);
  }

  lemma SameMembersSameMultiset<T>(x: seq<T>, y: seq<T>)
    requires Distinct(x) && Distinct(y) && forall v :: v in x <==> v in y
    ensures multiset(x) == multiset(y)
  {
    DistinctCount(x);
    DistinctCount(y);
    assert forall v :: multiset(x)[v] == multiset(y)[v];
  }

  lemma StringsDistinct(xs: seq<JsNumber>)
    requires Distinct(xs)
    ensures Distinct(Strings(xs))
  {
    forall p, q | 0 <= p < q < |xs| ensures Strings(xs)[p] != Strings(xs)[q] {
      ParseNumberToString(xs[p]);
      ParseNumberToString(xs[q]);
    }
  }

  lemma {:induction false} MeetAll(xs: seq<JsNumber>, ys: seq<JsNumber>)
    requires forall x :: x in xs ==> x in ys
    ensures Meet(xs, ys) == xs
  {
    if |xs| > 0 {
      assert xs[0] in xs;
      assert forall x :: x in xs[1..] ==> x in xs;
      MeetAll(xs[1..], ys);
      assert xs == [xs[0]] + xs[1..];
    }
  }

  /** The key of a duplicate-free list meets itself in itself. */
  lemma CanonicalKey(xs: seq<JsNumber>)
    requires |xs| > 0 && Distinct(xs)
    ensures MeetKey(KeyOf(xs), KeyOf(xs)) == Some(KeyOf(xs))
  {
    var printed := SortStrings(Strings(xs));
    SplitKey(xs);
    NumbersOfPrinted(xs, printed);
    StringsDistinct(xs);
    PermutationDistinct(Strings(xs), printed);
    var n := Numbers(printed);
    forall p, q | 0 <= p < q < |n| ensures n[p] != n[q] {
      assert Strings(n)[p] == printed[p] && Strings(n)[q] == printed[q];
    }
    DedupeDistinct(n);
    assert Tokens(KeyOf(xs)) == n;
    MeetAll(n, n);
    SortSorted(printed);
    assert KeyOf(n) == KeyOf(xs);
  }

  /** Keyed by the set, the key does not depend on order or on repeats. */
  lemma MassFromScoreSetDeterminedBySet(s: seq<int>, t: seq<int>)
    requires forall x :: x in s <==> x in t
    ensures MassFromScoreSet(s) == MassFromScoreSet(t)
  {
    var ds, dt := Dedupe(Ints(s)), Dedupe(Ints(t));
    DedupeMembers(Ints(s));
    DedupeMembers(Ints(t));
    forall v | v in ds ensures v in dt {
      var p :| 0 <= p < |Ints(s)| && Ints(s)[p] == v;
      assert s[p] in t;
      var q :| 0 <= q < |t| && t[q] == s[p];
      assert Ints(t)[q] == v;
    }
    forall v | v in dt ensures v in ds {
      var q :| 0 <= q < |Ints(t)| && Ints(t)[q] == v;
      assert t[q] in s;
      var p :| 0 <= p < |s| && s[p] == t[q];
      assert Ints(s)[p] == v;
    }
    SameMembersSameMultiset(ds, dt);
    MapSeqMultiset(NumberToString, ds, dt);
    SortStringsOrderInsensitive(Strings(ds), Strings(dt));
  }

  /** Combining the mass of a verdict with itself leaves it as it was. */
  lemma MassFromScoreSetIdempotent(decodedScores: seq<int>)
    requires |decodedScores| > 0
    ensures Combination(MassFromScoreSet(decodedScores), MassFromScoreSet(decodedScores))
         == ([Scaled(MassFromScoreSet(decodedScores)[0].key, Finite(1.0))], 0.0)
  {
    var d := Dedupe(Ints(decodedScores));
    DedupeMembers(Ints(decodedScores));
    assert Ints(decodedScores)[0] in d;
    CanonicalKey(d);
    var m := MassFromScoreSet(decodedScores);
    var key := KeyOf(d);
    assert m == [Entry(key, 1.0)];
    SelfMeetOne(key, MeetKey);
    OneKeyCombination(key);
  }

  lemma OneKeyCombination(key: string)
    requires Pairs([Entry(key, 1.0)], [Entry(key, 1.0)], MeetKey) == Acc([Entry(key, 1.0)], 0.0)
    ensures Combination([Entry(key, 1.0)], [Entry(key, 1.0)]) == ([Scaled(key, Finite(1.0))], 0.0)
  {
    assert Normalise([Entry(key, 1.0)], 1.0) == [Scaled(key, Finite(1.0))];
  }

  /** A one-key mass whose key meets itself pairs with itself into itself, with no conflict. */
  lemma SelfMeetOne(key: string, meet: Meeting)
    requires meet(key, key) == Some(key)
    ensures Pairs([Entry(key, 1.0)], [Entry(key, 1.0)], meet) == Acc([Entry(key, 1.0)], 0.0)
  {
    var e := Entry(key, 1.0);
    var m := [e];
    assert m[..0] == [];
    assert Pairs(m[..0], m, meet) == Acc([], 0.0);
    assert Row(Acc([], 0.0), e, m[..0], meet) == Acc([], 0.0);
    StepUnfold(Acc([], 0.0), e, e, meet);
  }

  /** Without repeated scores the two keyings agree. */
  lemma MassFromScoreSetAgrees(decodedScores: seq<int>)
    requires Distinct(decodedScores)
    ensures MassFromScoreSet(decodedScores) == MassFromVerdict(decodedScores)
  {
    DedupeDistinct(Ints(decodedScores));
  }
}
