/**
 * The array built-ins the orchestration code leans on: `filter`, `slice`
 * with an end that may be negative, counting, and a stable sort by a
 * numeric key (`arr.slice().sort((a, b) => key(a) - key(b))`).
 */
module JsArrays {

  /** `arr.filter(p)`. */
  function Filter<T>(s: seq<T>, p: T -> bool): (r: seq<T>)
    ensures |r| <= |s|
    ensures forall k :: 0 <= k < |r| ==> p(r[k]) && r[k] in s
    ensures forall k :: 0 <= k < |s| && p(s[k]) ==> s[k] in r
  {
    if |s| == 0 then []
    else if p(s[0]) then [s[0]] + Filter(s[1..], p)
    else Filter(s[1..], p)
  }

  lemma FilterAppend<T>(s: seq<T>, t: seq<T>, p: T -> bool)
    ensures Filter(s + t, p) == Filter(s, p) + Filter(t, p)
  {
    if |s| == 0 {
      assert s + t == t;
    } else {
      assert (s + t)[1..] == s[1..] + t;
      FilterAppend(s[1..], t, p);
    }
  }

  /** Nothing passes, nothing is kept. */
  lemma {:induction false} FilterNone<T>(s: seq<T>, p: T -> bool)
    requires forall k :: 0 <= k < |s| ==> !p(s[k])
    ensures Filter(s, p) == []
  {
    if |s| > 0 {
      assert !p(s[0]);
      FilterNone(s[1..], p);
    }
  }

  /** Elements that fail the test, inserted anywhere, do not change the filtered list. */
  lemma FilterSkip<T>(a: seq<T>, extra: seq<T>, b: seq<T>, p: T -> bool)
    requires forall k :: 0 <= k < |extra| ==> !p(extra[k])
    ensures Filter(a + extra + b, p) == Filter(a + b, p)
  {
    var ae := a + extra;
    FilterNone(extra, p);
    FilterAppend(a, extra, p);
    assert Filter(ae, p) == Filter(a, p);
    FilterAppend(ae, b, p);
    FilterAppend(a, b, p);
  }

  /** Filtering twice is filtering once. */
  lemma {:induction false} FilterIdempotent<T>(s: seq<T>, p: T -> bool)
    ensures Filter(Filter(s, p), p) == Filter(s, p)
  {
    if |s| > 0 {
      FilterIdempotent(s[1..], p);
      if p(s[0]) {
        assert ([s[0]] + Filter(s[1..], p))[1..] == Filter(s[1..], p);
      }
    }
  }

  /** Filtering one more element onto the end, as a loop that pushes does. */
  lemma FilterSnoc<T>(s: seq<T>, x: T, p: T -> bool)
    ensures Filter(s + [x], p) == if p(x) then Filter(s, p) + [x] else Filter(s, p)
  {
    FilterAppend(s, [x], p);
    assert Filter([x], p) == if p(x) then [x] else [];
  }

  /** r is s with some elements left out, the rest in their original order. */
  predicate Subsequence<T(==)>(r: seq<T>, s: seq<T>)
    decreases |s|
  {
    if |r| == 0 then true
    else if |s| == 0 then false
    else if r[0] == s[0] then Subsequence(r[1..], s[1..])
    else Subsequence(r, s[1..])
  }

  /** `filter` keeps the order of what it keeps. */
  lemma {:induction false} FilterSubsequence<T>(s: seq<T>, p: T -> bool)
    ensures Subsequence(Filter(s, p), s)
  {
    if |s| > 0 {
      FilterSubsequence(s[1..], p);
      if !p(s[0]) {
        SubsequenceSkip(Filter(s[1..], p), s[1..], s[0]);
        assert [s[0]] + s[1..] == s;
      }
    }
  }

  /** An element in front of s does not stop r from being a subsequence. */
  lemma {:induction false} SubsequenceSkip<T>(r: seq<T>, s: seq<T>, x: T)
    requires Subsequence(r, s)
    ensures Subsequence(r, [x] + s)
    decreases |s|, 1
  {
    assert ([x] + s)[1..] == s;
    if |r| > 0 && r[0] == x {
      SubsequenceDrop(r, s);
    }
  }

  /** Dropping the head of a subsequence keeps it a subsequence. */
  lemma {:induction false} SubsequenceDrop<T>(r: seq<T>, s: seq<T>)
    requires |r| > 0 && Subsequence(r, s)
    ensures Subsequence(r[1..], s)
    decreases |s|, 0
  {
    assert [s[0]] + s[1..] == s;
    if r[0] == s[0] {
      SubsequenceSkip(r[1..], s[1..], s[0]);
    } else {
      SubsequenceDrop(r, s[1..]);
      SubsequenceSkip(r[1..], s[1..], s[0]);
    }
  }

  /** The number of elements satisfying p. */
  function Count<T>(s: seq<T>, p: T -> bool): (n: nat)
    ensures n <= |s|
  {
    if |s| == 0 then 0 else (if p(s[0]) then 1 else 0) + Count(s[1..], p)
  }

  lemma CountSnoc<T>(s: seq<T>, x: T, p: T -> bool)
    ensures Count(s + [x], p) == Count(s, p) + if p(x) then 1 else 0
  {
    if |s| == 0 {
      assert (s + [x])[1..] == [];
    } else {
      assert (s + [x])[1..] == s[1..] + [x];
      CountSnoc(s[1..], x, p);
    }
  }

  /** Counting over a concatenation adds the counts. */
  lemma {:induction false} CountAppend<T>(s: seq<T>, t: seq<T>, p: T -> bool)
    ensures Count(s + t, p) == Count(s, p) + Count(t, p)
  {
    if |s| > 0 {
      assert (s + t)[1..] == s[1..] + t;
      CountAppend(s[1..], t, p);
    } else {
      assert s + t == t;
    }
  }

  /** When every element satisfies p, the count is the length. */
  lemma {:induction false} CountAll<T>(s: seq<T>, p: T -> bool)
    requires forall k :: 0 <= k < |s| ==> p(s[k])
    ensures Count(s, p) == |s|
  {
    if |s| > 0 {
      assert forall k :: 0 <= k < |s[1..]| ==> s[1..][k] == s[k + 1];
      CountAll(s[1..], p);
    }
  }

  lemma {:induction false} CountFilter<T>(s: seq<T>, p: T -> bool)
    ensures Count(s, p) == |Filter(s, p)|
  {
    if |s| > 0 {
      CountFilter(s[1..], p);
    }
  }

  /** `arr.some(p)` holds exactly when the count is positive. */
  lemma {:induction false} CountPositive<T>(s: seq<T>, p: T -> bool)
    ensures Count(s, p) > 0 <==> exists k :: 0 <= k < |s| && p(s[k])
  {
    if |s| > 0 {
      CountPositive(s[1..], p);
      if p(s[0]) {
      } else if exists k :: 0 <= k < |s| && p(s[k]) {
        var k :| 0 <= k < |s| && p(s[k]);
        assert s[1..][k - 1] == s[k];
      }
    }
  }

  /** Where `slice(0, end)` stops: a negative end counts back from the length. */
  function SliceEnd(len: nat, end: int): (e: nat)
    ensures e <= len
    ensures 0 <= end ==> e == if end < len then end else len
    ensures end < 0 ==> e == if len + end > 0 then len + end else 0
  {
    if end < 0 then (if len + end > 0 then len + end else 0)
    else if end < len then end else len
  }

  /** `arr.slice(0, end)`: always a prefix. */
  function SliceTo<T>(s: seq<T>, end: int): (r: seq<T>)
    ensures r == s[..SliceEnd(|s|, end)]
  {
    s[..SliceEnd(|s|, end)]
  }

  // ---------------------------------------------------------------------
  // A stable sort by a numeric key

  predicate SortedBy<T>(s: seq<T>, key: T -> int)
  {
    forall i, j :: 0 <= i < j < |s| ==> key(s[i]) <= key(s[j])
  }

  /** Insert x before the first element whose key is at least its own, so that earlier rows stay first. */
  function InsertBy<T>(x: T, s: seq<T>, key: T -> int): (r: seq<T>)
    ensures multiset(r) == multiset(s) + multiset{x}
    ensures |r| == |s| + 1
  {
    if |s| == 0 then [x]
    else if key(x) <= key(s[0]) then [x] + s
    else
      assert s == [s[0]] + s[1..];
      [s[0]] + InsertBy(x, s[1..], key)
  }

  /** Every element of InsertBy(x, s) is x or comes from s. */
  lemma {:induction false} InsertByFrom<T>(x: T, s: seq<T>, key: T -> int, k: nat)
    requires k < |s| + 1
    ensures InsertBy(x, s, key)[k] == x || InsertBy(x, s, key)[k] in s
  {
    if |s| > 0 && key(x) > key(s[0]) && k > 0 {
      InsertByFrom(x, s[1..], key, k - 1);
    }
  }

  lemma {:induction false} InsertBySorted<T>(x: T, s: seq<T>, key: T -> int)
    requires SortedBy(s, key)
    ensures SortedBy(InsertBy(x, s, key), key)
    ensures |s| > 0 ==> InsertBy(x, s, key)[0] == (if key(x) <= key(s[0]) then x else s[0])
  {
    if |s| > 0 && key(x) > key(s[0]) {
      var t := s[1..];
      assert SortedBy(t, key) by {
        forall i, j | 0 <= i < j < |t| ensures key(t[i]) <= key(t[j]) {
          assert t[i] == s[i + 1] && t[j] == s[j + 1];
        }
      }
      InsertBySorted(x, t, key);
      var r := InsertBy(x, t, key);
      forall k | 0 <= k < |r|
        ensures key(s[0]) <= key(r[k])
      {
        InsertByFrom(x, t, key, k);
        if r[k] != x {
          var j :| 0 <= j < |t| && t[j] == r[k];
          assert t[j] == s[j + 1];
        }
      }
      assert InsertBy(x, s, key) == [s[0]] + r;
    }
  }

  /** `arr.slice().sort((a, b) => key(a) - key(b))`: a stable insertion sort. */
  function SortBy<T>(s: seq<T>, key: T -> int): (r: seq<T>)
    ensures multiset(r) == multiset(s)
    ensures |r| == |s|
  {
    if |s| == 0 then []
    else
      assert s == [s[0]] + s[1..];
      InsertBy(s[0], SortBy(s[1..], key), key)
  }

  lemma {:induction false} SortBySorted<T>(s: seq<T>, key: T -> int)
    ensures SortedBy(SortBy(s, key), key)
  {
    if |s| > 0 {
      SortBySorted(s[1..], key);
      InsertBySorted(s[0], SortBy(s[1..], key), key);
    }
  }

  /** Rows that already come in key order are left where they are. */
  lemma {:induction false} SortByStable<T>(s: seq<T>, key: T -> int)
    requires SortedBy(s, key)
    ensures SortBy(s, key) == s
  {
    if |s| > 0 {
      SortByStable(s[1..], key);
      assert SortBy(s[1..], key) == s[1..];
      if |s| > 1 {
        assert key(s[0]) <= key(s[1]);
      }
      assert s == [s[0]] + s[1..];
    }
  }

  /** The position of the first element whose key is least. */
  function FirstMin<T>(s: seq<T>, key: T -> int): (i: nat)
    requires |s| > 0
    ensures i < |s|
    ensures forall k :: 0 <= k < |s| ==> key(s[i]) <= key(s[k])
    ensures forall k :: 0 <= k < i ==> key(s[i]) < key(s[k])
  {
    if |s| == 1 then 0
    else
      var j := FirstMin(s[1..], key);
      assert forall k :: 1 <= k < |s| ==> s[k] == s[1..][k - 1];
      if key(s[0]) <= key(s[1..][j]) then 0 else j + 1
  }

  /** The first element of a stable sort is the first element whose key is least. */
  lemma {:induction false} SortByFirst<T>(s: seq<T>, key: T -> int)
    requires |s| > 0
    ensures SortBy(s, key)[0] == s[FirstMin(s, key)]
  {
    if |s| > 1 {
      var t := s[1..];
      SortByFirst(t, key);
      SortBySorted(t, key);
      InsertBySorted(s[0], SortBy(t, key), key);
    }
  }
}
