// Ascending sorts used by the Monte Carlo percentiles (a typed-array sort,
// which here only ever sees whole numbers) and by the comparison chart
// (buckets sorted by age): an in-place insertion sort on a key, a
// reference sort on sequences, and the uniqueness of a sorted permutation.

module Sorting {

  predicate SortedBy<T>(s: seq<T>, key: T -> int)
  {
    forall i, j :: 0 <= i < j < |s| ==> key(s[i]) <= key(s[j])
  }

  function Id(x: int): int
  {
    x
  }

  predicate Ascending(s: seq<int>)
  {
    forall i, j :: 0 <= i < j < |s| ==> s[i] <= s[j]
  }

  lemma AscendingIsSortedById(s: seq<int>)
    ensures Ascending(s) <==> SortedBy(s, Id)
  {
  }

  /** Exchanges `a[i - 1]` and `a[i]`. */
  method Swap<T>(a: array<T>, i: int)
    requires 0 < i < a.Length
    modifies a
    ensures a[i - 1] == old(a[i]) && a[i] == old(a[i - 1])
    ensures forall m :: 0 <= m < a.Length && m != i - 1 && m != i ==> a[m] == old(a[m])
    ensures multiset(a[..]) == multiset(old(a[..]))
  {
    a[i - 1], a[i] := a[i], a[i - 1];
  }

  /** Sorts `a` ascending by `key`, in place. */
  method InsertionSort<T>(a: array<T>, key: T -> int)
    modifies a
    ensures SortedBy(a[..], key)
    ensures multiset(a[..]) == multiset(old(a[..]))
  {
    var i := 0;
    while i < a.Length
      invariant 0 <= i <= a.Length
      invariant forall k, l :: 0 <= k < l < i ==> key(a[k]) <= key(a[l])
      invariant multiset(a[..]) == multiset(old(a[..]))
    {
      var j := i;
      while j > 0 && key(a[j - 1]) > key(a[j])
        invariant 0 <= j <= i
        invariant forall k, l :: 0 <= k < l <= i && k != j && l != j ==> key(a[k]) <= key(a[l])
        invariant forall l :: j < l <= i ==> key(a[j]) <= key(a[l])
        invariant multiset(a[..]) == multiset(old(a[..]))
      {
        Swap(a, j);
        j := j - 1;
      }
      i := i + 1;
    }
  }

  // ------------------------------------------------------------ reference sort

  lemma LowerBoundByElements(y: int, r: seq<int>, s: seq<int>, x: int)
    requires multiset(r) == multiset(s) + multiset{x}
    requires y <= x && forall k :: 0 <= k < |s| ==> y <= s[k]
    ensures forall k :: 0 <= k < |r| ==> y <= r[k]
  {
    forall k | 0 <= k < |r|
      ensures y <= r[k]
    {
      assert r[k] in multiset(r);
      if r[k] != x {
        assert r[k] in multiset(s);
      }
    }
  }

  lemma ConsAscending(y: int, r: seq<int>)
    requires Ascending(r) && forall k :: 0 <= k < |r| ==> y <= r[k]
    ensures Ascending([y] + r)
  {
    var yr := [y] + r;
    forall i, j | 0 <= i < j < |yr|
      ensures yr[i] <= yr[j]
    {
      assert yr[j] == r[j - 1];
      if i > 0 {
        assert yr[i] == r[i - 1];
      }
    }
  }

  /** Puts `x` into an ascending sequence. */
  function Insert(x: int, s: seq<int>): (r: seq<int>)
    requires Ascending(s)
    ensures Ascending(r)
    ensures multiset(r) == multiset(s) + multiset{x}
  {
    if s == [] || x <= s[0] then
      ConsAscending(x, s);
      [x] + s
    else
      var rest := Insert(x, s[1..]);
      assert s == [s[0]] + s[1..];
      LowerBoundByElements(s[0], rest, s[1..], x);
      ConsAscending(s[0], rest);
      assert multiset([s[0]] + rest) == multiset{s[0]} + multiset(rest);
      [s[0]] + rest
  }

  /** The ascending rearrangement of `s`. */
  function SortSeq(s: seq<int>): (r: seq<int>)
    ensures Ascending(r)
    ensures multiset(r) == multiset(s)
  {
    if s == [] then []
    else
      assert s == [s[0]] + s[1..];
      Insert(s[0], SortSeq(s[1..]))
  }

  /** The head of an ascending sequence is its least element. */
  lemma HeadIsLeast(s: seq<int>, v: int)
    requires Ascending(s) && v in multiset(s)
    ensures |s| > 0 && s[0] <= v
  {
    var k :| 0 <= k < |s| && s[k] == v;
  }

  /** Two ascending sequences with the same elements are equal. */
  lemma {:induction false} AscendingUnique(s: seq<int>, t: seq<int>)
    requires Ascending(s) && Ascending(t)
    requires multiset(s) == multiset(t)
    ensures s == t
  {
    if s != [] {
      assert s[0] in multiset(s);
      HeadIsLeast(t, s[0]);
      assert |t| > 0 && t[0] in multiset(t);
      HeadIsLeast(s, t[0]);
      assert s[0] == t[0];
      assert s == [s[0]] + s[1..];
      assert t == [t[0]] + t[1..];
      var ms, mt := multiset(s[1..]), multiset(t[1..]);
      assert multiset(s) == multiset{s[0]} + ms;
      assert multiset(t) == multiset{s[0]} + mt;
      forall e
        ensures ms[e] == mt[e]
      {
        assert multiset(s)[e] == multiset{s[0]}[e] + ms[e];
        assert multiset(t)[e] == multiset{s[0]}[e] + mt[e];
      }
      assert ms == mt;
      AscendingUnique(s[1..], t[1..]);
    } else {
      assert |t| == |multiset(t)| == 0;
    }
  }

  /** An ascending sequence is its own sort, so sorting twice changes nothing. */
  lemma SortSeqOfAscending(s: seq<int>)
    requires Ascending(s)
    ensures SortSeq(s) == s
  {
    AscendingUnique(SortSeq(s), s);
  }

  /** Sorting whole numbers in place yields exactly the reference sort. */
  method SortInts(a: array<int>)
    modifies a
    ensures a[..] == SortSeq(old(a[..]))
  {
    InsertionSort(a, Id);
    AscendingIsSortedById(a[..]);
    AscendingUnique(a[..], SortSeq(old(a[..])));
  }
}
