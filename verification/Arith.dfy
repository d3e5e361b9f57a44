/** The few facts about multiplication and division the solver needs to be told. */
module Arith {

  lemma MulAtLeast(x: int, d: int)
    requires x >= 1 && d > 0
    ensures x * d >= d
  {
  }

  lemma MulMonotone(x: int, y: int, d: int)
    requires x <= y && d >= 0
    ensures x * d <= y * d
  {
  }

  lemma MulStep(x: int, d: int)
    ensures (x - 1) * d == x * d - d
  {
  }

  /** Quotient and remainder are unique. */
  lemma Quotient(n: nat, q: nat, d: nat, r: nat)
    requires n == q * d + r && r < d
    ensures n / d == q && n % d == r
  {
    var k, m := n / d, n % d;
    assert n == k * d + m;
    assert (k - q) * d == r - m;
    if k > q {
      MulAtLeast(k - q, d);
    }
    if k < q {
      MulAtLeast(q - k, d);
    }
  }

  predicate Below(i: nat, n: nat) {
    i < n
  }

  /** The integers 0..n-1. */
  function Upto(n: nat): (r: set<nat>)
    ensures forall i: nat :: i in r <==> i < n
  {
    set i: nat | i < n && Below(i, n)
  }

  lemma {:induction false} UptoSize(n: nat)
    ensures |Upto(n)| == n
  {
    if n == 0 {
      assert Upto(n) == {};
    } else {
      UptoSize(n - 1);
      assert Upto(n) == Upto(n - 1) + {n - 1};
    }
  }

  lemma SubsetSize<T>(s: set<T>, t: set<T>)
    requires s <= t
    ensures |s| <= |t|
  {
    assert |t| == |s| + |t - s| by {
      assert t == s + (t - s);
    }
  }

  lemma RemoveUpdated<K, V>(m: map<K, V>, k: K, v: V)
    ensures m[k := v] - {k} == m - {k}
  {
  }

  lemma UpdatePresent<K, V>(m: map<K, V>, k: K, v: V)
    requires k in m
    ensures m[k := v].Keys == m.Keys && |m[k := v]| == |m|
  {
    assert m[k := v].Keys == m.Keys;
  }

  lemma UpdateAbsent<K, V>(m: map<K, V>, k: K, v: V)
    requires k !in m
    ensures m[k := v].Keys == m.Keys + {k} && |m[k := v]| == |m| + 1
  {
    assert m[k := v].Keys == m.Keys + {k};
  }
}
