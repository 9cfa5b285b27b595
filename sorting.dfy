/**
 * Sorting a list by a caller-supplied comparison, the role List.Sort plays
 * in the indexer. Only "sorted and a permutation" is promised: the order of
 * elements the comparison calls equal is left open, as List.Sort is unstable.
 */
module Sorting {

  /** `le` is a total preorder on the elements of `s`. */
  ghost predicate TotalPreorderOn<T>(s: seq<T>, le: (T, T) -> bool) {
    && (forall x, y :: x in s && y in s ==> le(x, y) || le(y, x))
    && (forall x, y, z :: x in s && y in s && z in s && le(x, y) && le(y, z) ==> le(x, z))
  }

  ghost predicate SortedBy<T>(s: seq<T>, le: (T, T) -> bool) {
    forall i, j :: 0 <= i < j < |s| ==> le(s[i], s[j])
  }

  /** `r` holds exactly the elements of `s`, in an order `le` accepts. */
  ghost predicate IsSortedPermutation<T>(r: seq<T>, s: seq<T>, le: (T, T) -> bool) {
    multiset(r) == multiset(s) && SortedBy(r, le)
  }

  /** `x` placed before the first element of `s` it does not follow. */
  function Insert<T>(x: T, s: seq<T>, le: (T, T) -> bool): (r: seq<T>)
    ensures multiset(r) == multiset(s) + multiset{x}
  {
    if s == [] then [x]
    else if le(x, s[0]) then [x] + s
    else
      assert s == [s[0]] + s[1..];
      [s[0]] + Insert(x, s[1..], le)
  }

  lemma {:induction false} InsertSorted<T>(x: T, s: seq<T>, le: (T, T) -> bool)
    requires SortedBy(s, le)
    requires TotalPreorderOn(s + [x], le)
    ensures SortedBy(Insert(x, s, le), le)
  {
    if s == [] {
    } else if le(x, s[0]) {
      forall y | y in s ensures le(x, y) {
        var k :| 0 <= k < |s| && s[k] == y;
        if k > 0 {
          assert le(s[0], s[k]);
          assert s[0] in s + [x] && y in s + [x] && x in s + [x];
        }
      }
      ConsSorted(x, s, le);
    } else {
      var t := s[1..];
      assert forall y :: y in t + [x] ==> y in s + [x];
      assert SortedBy(t, le) by {
        forall i, j | 0 <= i < j < |t| ensures le(t[i], t[j]) {
          assert t[i] == s[i + 1] && t[j] == s[j + 1];
        }
      }
      InsertSorted(x, t, le);
      var rest := Insert(x, t, le);
      assert le(s[0], x) by {
        assert s[0] in s + [x] && x in s + [x];
      }
      forall y | y in rest ensures le(s[0], y) {
        assert y in multiset(rest);
        assert y in multiset(t) || y == x;
        if y in t {
          var k :| 0 <= k < |t| && t[k] == y;
          assert s[k + 1] == y;
        }
      }
      ConsSorted(s[0], rest, le);
    }
  }

  /** An element that every element of a sorted list follows can be put in front of it. */
  lemma ConsSorted<T>(a: T, rest: seq<T>, le: (T, T) -> bool)
    requires SortedBy(rest, le)
    requires forall y :: y in rest ==> le(a, y)
    ensures SortedBy([a] + rest, le)
  {
    var r := [a] + rest;
    forall i, j | 0 <= i < j < |r| ensures le(r[i], r[j]) {
      assert r[j] == rest[j - 1];
      if i > 0 {
        assert r[i] == rest[i - 1];
      }
    }
  }

  /** Insertion sort: a sorted permutation of `s`. */
  method SortBy<T>(s: seq<T>, le: (T, T) -> bool) returns (r: seq<T>)
    requires TotalPreorderOn(s, le)
    ensures IsSortedPermutation(r, s, le)
    ensures |r| == |s| && forall x :: x in r <==> x in s
  {
    r := [];
    var i := 0;
    while i < |s|
      invariant 0 <= i <= |s|
      invariant multiset(r) == multiset(s[..i])
      invariant SortedBy(r, le)
    {
      assert s[..i + 1] == s[..i] + [s[i]];
      forall y | y in r + [s[i]] ensures y in s {
        assert y in multiset(r + [s[i]]);
        assert y in multiset(s[..i + 1]);
        assert y in s[..i + 1];
      }
      InsertSorted(s[i], r, le);
      r := Insert(s[i], r, le);
      i := i + 1;
    }
    assert s[..i] == s;
    assert |r| == |multiset(r)| == |multiset(s)| == |s|;
    forall x ensures x in r <==> x in s {
      assert x in r <==> x in multiset(r);
      assert x in s <==> x in multiset(s);
    }
  }

  /** A permutation of a list without repeats has no repeats either. */
  lemma PermutationKeepsDistinct<T>(r: seq<T>, s: seq<T>)
    requires multiset(r) == multiset(s)
    requires forall i, j :: 0 <= i < j < |s| ==> s[i] != s[j]
    ensures forall i, j :: 0 <= i < j < |r| ==> r[i] != r[j]
  {
    forall i, j | 0 <= i < j < |r| ensures r[i] != r[j] {
      if r[i] == r[j] {
        assert multiset(r)[r[i]] >= 2 by {
          var rest := r[..i] + r[i + 1..];
          assert r == r[..i] + [r[i]] + r[i + 1..];
          assert r[j] in rest by { assert rest[j - 1] == r[j]; }
          assert multiset(r) == multiset(rest) + multiset{r[i]};
        }
        DistinctCountsOne(s, r[i]);
        assert false;
      }
    }
  }

  lemma {:induction false} DistinctCountsOne<T>(s: seq<T>, x: T)
    requires forall i, j :: 0 <= i < j < |s| ==> s[i] != s[j]
    ensures multiset(s)[x] <= 1
  {
    if s != [] {
      var t := s[1..];
      assert s == [s[0]] + t;
      DistinctCountsOne(t, x);
      if x == s[0] {
        assert forall k :: 0 <= k < |t| ==> t[k] == s[k + 1];
        assert x !in t;
      }
    }
  }
}
