/** An in-place sort. Callers know only that the result is some sorted permutation, as with Go's unstable sort.Sort. */
module Sorting {

  ghost predicate SortedBy<T>(s: seq<T>, key: T -> real) {
    forall i, j | 0 <= i < j < |s| :: key(s[i]) <= key(s[j])
  }

  function Swapped<T>(s: seq<T>, i: nat, j: nat): seq<T>
    requires i < |s| && j < |s|
  {
    s[i := s[j]][j := s[i]]
  }

  lemma SwappedPermutes<T>(s: seq<T>, i: nat, j: nat)
    requires i < |s| && j < |s|
    ensures multiset(Swapped(s, i, j)) == multiset(s)
  {
  }

  method Swap<T>(a: array<T>, i: nat, j: nat)
    requires i < a.Length && j < a.Length
    modifies a
    ensures a[..] == Swapped(old(a[..]), i, j)
    ensures multiset(a[..]) == old(multiset(a[..]))
  {
    ghost var s := a[..];
    a[i], a[j] := a[j], a[i];
    assert a[..] == Swapped(s, i, j);
    SwappedPermutes(s, i, j);
  }

  /** The first n + 1 elements are sorted but for the one at j, which is at most those after it. */
  ghost predicate SortedBut<T>(s: seq<T>, key: T -> real, n: nat, j: nat)
    requires j <= n < |s|
  {
    forall i, k | 0 <= i < k <= n && k != j :: key(s[i]) <= key(s[k])
  }

  lemma SwapDown<T>(s: seq<T>, key: T -> real, n: nat, j: nat)
    requires 0 < j <= n < |s| && SortedBut(s, key, n, j) && key(s[j - 1]) > key(s[j])
    ensures SortedBut(Swapped(s, j - 1, j), key, n, j - 1)
  {
  }

  /** Moves element n down to its place among the sorted elements before it. */
  method Insert<T>(a: array<T>, key: T -> real, n: nat)
    requires n < a.Length && SortedBy(a[..n], key)
    modifies a
    ensures SortedBy(a[..n + 1], key)
    ensures multiset(a[..]) == old(multiset(a[..]))
  {
    var j := n;
    ghost var s := a[..];
    assert SortedBut(s, key, n, j) by {
      assert forall i | 0 <= i < n :: s[i] == a[..n][i];
    }
    while j > 0 && key(a[j - 1]) > key(a[j])
      invariant 0 <= j <= n && |s| == a.Length && a[..] == s
      invariant SortedBut(s, key, n, j)
      invariant multiset(s) == old(multiset(a[..]))
    {
      SwapDown(s, key, n, j);
      Swap(a, j - 1, j);
      s := a[..];
      j := j - 1;
    }
    InsertedSorted(s, key, n, j);
    assert a[..n + 1] == s[..n + 1];
  }

  lemma InsertedSorted<T>(s: seq<T>, key: T -> real, n: nat, j: nat)
    requires j <= n < |s| && SortedBut(s, key, n, j) && (j > 0 ==> key(s[j - 1]) <= key(s[j]))
    ensures SortedBy(s[..n + 1], key)
  {
    forall i, k | 0 <= i < k <= n
      ensures key(s[i]) <= key(s[k])
    {
      if k == j && i < j - 1 {
        assert key(s[i]) <= key(s[j - 1]);
      }
    }
  }

  method Sort<T>(a: array<T>, key: T -> real)
    modifies a
    ensures SortedBy(a[..], key)
    ensures multiset(a[..]) == old(multiset(a[..]))
  {
    for n := 0 to a.Length
      invariant SortedBy(a[..n], key)
      invariant multiset(a[..]) == old(multiset(a[..]))
    {
      Insert(a, key, n);
    }
    assert a[..a.Length] == a[..];
  }

  // ---- Permutations ----

  ghost predicate NoDuplicates<T>(s: seq<T>) {
    forall i, j | 0 <= i < j < |s| :: s[i] != s[j]
  }

  lemma {:induction false} CountsOfDistinct<T>(s: seq<T>, x: T)
    requires NoDuplicates(s)
    ensures multiset(s)[x] <= 1
  {
    if s != [] {
      var t := s[..|s| - 1];
      assert s == t + [s[|s| - 1]];
      CountsOfDistinct(t, x);
      if x == s[|s| - 1] {
        assert x !in t;
        assert x !in multiset(t);
      }
    }
  }

  /** A permutation has the same elements, and no duplicates if the original has none. */
  lemma PermutationOf<T>(s: seq<T>, t: seq<T>)
    requires multiset(s) == multiset(t)
    ensures |s| == |t|
    ensures forall x :: x in s <==> x in t
    ensures NoDuplicates(t) ==> NoDuplicates(s)
  {
    assert |s| == |multiset(s)| == |multiset(t)| == |t|;
    forall x
      ensures x in s <==> x in t
    {
      assert x in s <==> x in multiset(s);
      assert x in t <==> x in multiset(t);
    }
    if NoDuplicates(t) {
      forall i, j | 0 <= i < j < |s|
        ensures s[i] != s[j]
      {
        CountsOfDistinct(t, s[i]);
        assert s == s[..j] + [s[j]] + s[j + 1..];
        assert s[i] in s[..j];
        assert s[i] in multiset(s[..j]);
      }
    }
  }
}
