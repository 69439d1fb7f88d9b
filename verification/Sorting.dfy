/** qsort: any routine that leaves a sorted permutation. Callers use nothing else. */
module Sorting {
  import opened Prelude

  /** A comparison that qsort may be called with: total and transitive. Equal elements
      may end up in any order. */
  ghost predicate IsOrder<T(!new)>(le: (T, T) -> bool) {
    && (forall x, y :: le(x, y) || le(y, x))
    && (forall x, y, z :: le(x, y) && le(y, z) ==> le(x, z))
  }

  ghost predicate SortedBy<T>(s: seq<T>, le: (T, T) -> bool) {
    forall i, j :: 0 <= i < j < |s| ==> le(s[i], s[j])
  }

  function Insert<T(!new)>(x: T, s: seq<T>, le: (T, T) -> bool): (r: seq<T>)
    requires IsOrder(le) && SortedBy(s, le)
    ensures SortedBy(r, le) && multiset(r) == multiset{x} + multiset(s)
  {
    if s == [] then [x]
    else if le(x, s[0]) then
      assert SortedBy([x] + s, le);
      [x] + s
    else
      assert s == [s[0]] + s[1..];
      var r := Insert(x, s[1..], le);
      FirstLeads(s[0], x, s[1..], r, le);
      [s[0]] + r
  }

  lemma FirstLeads<T(!new)>(first: T, x: T, s: seq<T>, r: seq<T>, le: (T, T) -> bool)
    requires IsOrder(le) && SortedBy(r, le) && multiset(r) == multiset{x} + multiset(s)
    requires le(first, x) && forall y :: y in s ==> le(first, y)
    ensures SortedBy([first] + r, le)
  {
    forall j | 0 <= j < |r|
      ensures le(first, r[j])
    {
      assert r[j] in multiset(r);
    }
  }

  function Sorted<T(!new)>(s: seq<T>, le: (T, T) -> bool): (r: seq<T>)
    requires IsOrder(le)
    ensures SortedBy(r, le) && multiset(r) == multiset(s)
  {
    if s == [] then []
    else
      assert s == [s[0]] + s[1..];
      Insert(s[0], Sorted(s[1..], le), le)
  }

  /** Sorts the first n elements of an array in place. */
  method Qsort<T(!new)>(a: array<T>, n: nat, le: (T, T) -> bool)
    requires n <= a.Length && IsOrder(le)
    modifies a
    ensures SortedBy(a[..n], le) && multiset(a[..n]) == multiset(old(a[..n]))
    ensures a[n..] == old(a[n..])
  {
    var r := Sorted(a[..n], le);
    assert |r| == |multiset(r)| == |multiset(a[..n])| == n;
    CopyInto(a, 0, r);
    assert a[..n] == r;
  }

  lemma SameElems<T>(a: seq<T>, b: seq<T>)
    requires multiset(a) == multiset(b)
    ensures |a| == |b| && forall x :: x in a <==> x in b
  {
    assert |a| == |multiset(a)| == |multiset(b)| == |b|;
    forall x
      ensures x in a <==> x in b
    {
      assert x in a <==> x in multiset(a);
    }
  }

  /** A permutation of distinct elements has distinct elements. */
  lemma DistinctPermutation<T>(a: seq<T>, b: seq<T>)
    requires multiset(a) == multiset(b) && Distinct(a)
    ensures Distinct(b)
  {
    forall i, j | 0 <= i < j < |b|
      ensures b[i] != b[j]
    {
      if b[i] == b[j] {
        assert b == b[..i] + [b[i]] + b[i + 1..j] + [b[j]] + b[j + 1..];
        assert multiset(b)[b[i]] >= 2;
        AtMostOnce(a, b[i]);
      }
    }
  }

  lemma {:induction false} AtMostOnce<T>(a: seq<T>, x: T)
    requires Distinct(a)
    ensures multiset(a)[x] <= 1
  {
    if a != [] {
      assert a == [a[0]] + a[1..];
      AtMostOnce(a[1..], x);
      if a[0] == x {
        assert x !in a[1..];
      }
    }
  }
}
