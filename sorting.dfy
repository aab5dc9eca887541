/** Ascending sort of a list of reals, the `[...values].sort((a, b) => a - b)` copy taken by calculateMedian. */
module Sorting {

  ghost predicate SortedAsc(s: seq<real>) {
    forall i, j :: 0 <= i < j < |s| ==> s[i] <= s[j]
  }

  /** A value no larger than any element of a sorted list may be put in front of it. */
  lemma SortedCons(x: real, s: seq<real>)
    requires SortedAsc(s)
    requires forall k :: 0 <= k < |s| ==> x <= s[k]
    ensures SortedAsc([x] + s)
  {
    var r := [x] + s;
    forall i, j | 0 <= i < j < |r|
      ensures r[i] <= r[j]
    {
      if i > 0 {
        assert r[i] == s[i - 1] && r[j] == s[j - 1];
      } else {
        assert r[j] == s[j - 1];
      }
    }
  }

  function Insert(x: real, s: seq<real>): (r: seq<real>)
    requires SortedAsc(s)
    ensures SortedAsc(r)
    ensures multiset(r) == multiset(s) + multiset{x}
    ensures |r| == |s| + 1
  {
    if |s| == 0 then [x]
    else if x <= s[0] then
      SortedCons(x, s);
      [x] + s
    else
      var tail := s[1..];
      assert SortedAsc(tail);
      var rest := Insert(x, tail);
      assert s == [s[0]] + tail;
      assert forall k :: 0 <= k < |rest| ==> s[0] <= rest[k] by {
        forall k | 0 <= k < |rest|
          ensures s[0] <= rest[k]
        {
          assert rest[k] in multiset(rest);
          assert rest[k] == x || rest[k] in tail;
        }
      }
      SortedCons(s[0], rest);
      [s[0]] + rest
  }

  /** The sorted copy: ordered, and a permutation of the input. */
  function SortAsc(s: seq<real>): (r: seq<real>)
    ensures SortedAsc(r)
    ensures multiset(r) == multiset(s)
    ensures |r| == |s|
  {
    if |s| == 0 then []
    else
      assert s == [s[0]] + s[1..];
      Insert(s[0], SortAsc(s[1..]))
  }

  /** Dropping the head of a sorted list leaves a sorted list of the remaining values. */
  lemma SortedTail(s: seq<real>)
    requires SortedAsc(s) && |s| > 0
    ensures SortedAsc(s[1..])
    ensures multiset(s[1..]) == multiset(s) - multiset{s[0]}
  {
    assert s == [s[0]] + s[1..];
  }

  /** The head of a sorted list is its least value. */
  lemma HeadIsLeast(s: seq<real>, v: real)
    requires SortedAsc(s) && v in multiset(s)
    ensures |s| > 0 && s[0] <= v
  {
    var i :| 0 <= i < |s| && s[i] == v;
  }

  /** There is only one sorted arrangement of a multiset. */
  lemma {:induction false} SortedUnique(a: seq<real>, b: seq<real>)
    requires SortedAsc(a) && SortedAsc(b)
    requires multiset(a) == multiset(b)
    ensures a == b
    decreases |a|
  {
    assert |a| == |b| by {
      assert |multiset(a)| == |a| && |multiset(b)| == |b|;
    }
    if |a| > 0 {
      SortedTail(a);
      SortedTail(b);
      assert a[0] == b[0] by {
        HeadIsLeast(b, a[0]);
        HeadIsLeast(a, b[0]);
      }
      SortedUnique(a[1..], b[1..]);
      forall i | 0 <= i < |a|
        ensures a[i] == b[i]
      {
        if i > 0 {
          assert a[i] == a[1..][i - 1] && b[i] == b[1..][i - 1];
        }
      }
    }
  }

  /** Sorting an already sorted list gives it back. */
  lemma SortOfSorted(s: seq<real>)
    requires SortedAsc(s)
    ensures SortAsc(s) == s
  {
    SortedUnique(SortAsc(s), s);
  }
}
