/** Go's `sort.Slice`, known to its callers only by its contract: the result is ordered by `less` and is a
    permutation of the argument.  Equal elements may come out in any order. */
module Sorting {

  ghost predicate Total<T(!new)>(lessOrEqual: (T, T) -> bool)
  {
    forall a, b :: lessOrEqual(a, b) || lessOrEqual(b, a)
  }

  ghost predicate Transitive<T(!new)>(lessOrEqual: (T, T) -> bool)
  {
    forall a, b, c :: lessOrEqual(a, b) && lessOrEqual(b, c) ==> lessOrEqual(a, c)
  }

  predicate SortedBy<T>(lessOrEqual: (T, T) -> bool, s: seq<T>)
  {
    forall i, j :: 0 <= i < j < |s| ==> lessOrEqual(s[i], s[j])
  }

  method SortSlice<T(!new)>(s: seq<T>, lessOrEqual: (T, T) -> bool) returns (r: seq<T>)
    requires Total(lessOrEqual) && Transitive(lessOrEqual)
    ensures SortedBy(lessOrEqual, r)
    ensures multiset(r) == multiset(s)
    ensures |r| == |s|
  {
    r := [];
    for i := 0 to |s|
      invariant SortedBy(lessOrEqual, r)
      invariant multiset(r) == multiset(s[..i])
    {
      r := InsertSorted(r, s[i], lessOrEqual);
      assert s[..i + 1] == s[..i] + [s[i]];
    }
    assert s[..|s|] == s;
    SameSize(r, s);
  }

  method InsertSorted<T(!new)>(s: seq<T>, x: T, lessOrEqual: (T, T) -> bool) returns (r: seq<T>)
    requires Total(lessOrEqual) && Transitive(lessOrEqual) && SortedBy(lessOrEqual, s)
    ensures SortedBy(lessOrEqual, r)
    ensures multiset(r) == multiset(s) + multiset{x}
  {
    var n := 0;
    while n < |s| && lessOrEqual(s[n], x)
      invariant 0 <= n <= |s|
      invariant forall j :: 0 <= j < n ==> lessOrEqual(s[j], x)
    {
      n := n + 1;
    }
    r := s[..n] + [x] + s[n..];
    assert s == s[..n] + s[n..];
    InsertionIsSorted(s, n, x, lessOrEqual);
  }

  lemma InsertionIsSorted<T(!new)>(s: seq<T>, n: nat, x: T, lessOrEqual: (T, T) -> bool)
    requires Total(lessOrEqual) && Transitive(lessOrEqual) && SortedBy(lessOrEqual, s)
    requires n <= |s| && forall j :: 0 <= j < n ==> lessOrEqual(s[j], x)
    requires n < |s| ==> !lessOrEqual(s[n], x)
    ensures SortedBy(lessOrEqual, s[..n] + [x] + s[n..])
  {
    var r := s[..n] + [x] + s[n..];
    forall i, j | 0 <= i < j < |r|
      ensures lessOrEqual(r[i], r[j])
    {
      if i == n {
        assert lessOrEqual(x, s[n]);
        assert j - 1 == n || lessOrEqual(s[n], s[j - 1]);
      }
    }
  }

  lemma SameSize<T>(a: seq<T>, b: seq<T>)
    requires multiset(a) == multiset(b)
    ensures |a| == |b|
  {
    assert |multiset(a)| == |a| && |multiset(b)| == |b|;
  }

  /** Members of permutations of one another coincide. */
  lemma SameMembers<T>(a: seq<T>, b: seq<T>, x: T)
    requires multiset(a) == multiset(b)
    ensures x in a <==> x in b
  {
    assert x in a <==> x in multiset(a);
    assert x in b <==> x in multiset(b);
  }

  predicate Distinct<T(==)>(s: seq<T>)
  {
    forall i, j :: 0 <= i < j < |s| ==> s[i] != s[j]
  }

  lemma {:induction false} DistinctMeansOnce<T>(s: seq<T>, x: T)
    requires Distinct(s)
    ensures multiset(s)[x] <= 1
  {
    if s != [] {
      var n := |s| - 1;
      DistinctMeansOnce(s[..n], x);
      assert s == s[..n] + [s[n]];
      if x == s[n] {
        assert x !in s[..n];
        assert x !in multiset(s[..n]);
      }
    }
  }

  /** A permutation of distinct elements repeats none of them. */
  lemma PermutationOfDistinct<T>(a: seq<T>, b: seq<T>)
    requires Distinct(a) && multiset(a) == multiset(b)
    ensures Distinct(b)
  {
    forall i, j | 0 <= i < j < |b|
      ensures b[i] != b[j]
    {
      DistinctMeansOnce(a, b[i]);
      assert b == b[..j] + [b[j]] + b[j + 1..];
      assert b[i] in b[..j];
      assert b[i] in multiset(b[..j]);
    }
  }
}
