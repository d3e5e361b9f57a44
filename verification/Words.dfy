/** Machine words as sequences of bits, high bit first. */
module Words {
  import opened Arith

  function Pow2(m: nat): (p: nat)
    ensures p >= 1
  {
    if m == 0 then 1 else 2 * Pow2(m - 1)
  }

  function BitsOf(x: nat, m: nat): (p: seq<bool>)
    ensures |p| == m
    decreases x, m
  {
    if m == 0 then [] else BitsOf(x / 2, m - 1) + [x % 2 == 1]
  }

  function Value(p: seq<bool>): (x: nat)
    ensures x < Pow2(|p|)
  {
    if p == [] then 0 else 2 * Value(p[..|p| - 1]) + if p[|p| - 1] then 1 else 0
  }

  lemma {:induction false} ValueOfBits(x: nat, m: nat)
    requires x < Pow2(m)
    ensures Value(BitsOf(x, m)) == x
  {
    if m > 0 {
      ValueOfBits(x / 2, m - 1);
      assert BitsOf(x, m)[..m - 1] == BitsOf(x / 2, m - 1);
    }
  }

  lemma {:induction false} BitsOfValue(p: seq<bool>)
    ensures BitsOf(Value(p), |p|) == p
  {
    if p != [] {
      var q := p[..|p| - 1];
      BitsOfValue(q);
      assert Value(p) / 2 == Value(q);
      assert p == q + [p[|p| - 1]];
    }
  }

  lemma HalfThenDivide(x: nat, p: nat)
    requires p >= 1
    ensures x / 2 / p == x / (2 * p)
  {
    var q, r := x / 2 / p, x / 2 % p;
    assert x / 2 == q * p + r;
    assert x == q * (2 * p) + (2 * r + x % 2);
    Quotient(x, q, 2 * p, 2 * r + x % 2);
  }

  /** The bits are the binary digits. */
  lemma {:induction false} BitIsDigit(x: nat, m: nat, k: nat)
    requires k < m
    ensures BitsOf(x, m)[k] <==> x / Pow2(m - 1 - k) % 2 == 1
  {
    if k < m - 1 {
      BitIsDigit(x / 2, m - 1, k);
      HalfThenDivide(x, Pow2(m - 2 - k));
    }
  }

  lemma {:induction false} Pow2Monotone(j: nat, k: nat)
    requires j <= k
    ensures Pow2(j) <= Pow2(k)
  {
    if j < k {
      Pow2Monotone(j, k - 1);
    }
  }

  /** x | y */
  function Or(x: seq<bool>, y: seq<bool>): (r: seq<bool>)
    requires |x| == |y|
    ensures |r| == |x|
  {
    seq(|x|, i requires 0 <= i < |x| => x[i] || y[i])
  }

  /** x >> n */
  function ShiftRight(x: seq<bool>, n: nat): (r: seq<bool>)
    ensures |r| == |x|
  {
    seq(|x|, i requires 0 <= i < |x| => i >= n && x[i - n])
  }

  /** Leading zeros and then ones. */
  ghost predicate ZerosThenOnes(p: seq<bool>, zeros: nat) {
    zeros <= |p| && forall i | 0 <= i < |p| :: p[i] <==> i >= zeros
  }

  lemma {:induction false} ValueOfOnes(p: seq<bool>, zeros: nat)
    requires ZerosThenOnes(p, zeros)
    ensures Value(p) + 1 == Pow2(|p| - zeros)
  {
    if |p| > zeros {
      ValueOfOnes(p[..|p| - 1], zeros);
    } else if |p| > 0 {
      ValueOfOnes(p[..|p| - 1], zeros - 1);
    }
  }

  /** The first one bit decides between which powers of two a word lies. */
  lemma {:induction false} ValueBounds(p: seq<bool>, zeros: nat)
    requires zeros < |p| && p[zeros] && forall i | 0 <= i < zeros :: !p[i]
    ensures Pow2(|p| - zeros - 1) <= Value(p) < Pow2(|p| - zeros)
  {
    if zeros < |p| - 1 {
      ValueBounds(p[..|p| - 1], zeros);
    } else {
      ValueOfZeros(p[..|p| - 1]);
    }
  }

  lemma {:induction false} ValueOfZeros(p: seq<bool>)
    requires forall i | 0 <= i < |p| :: !p[i]
    ensures Value(p) == 0
  {
    if p != [] {
      ValueOfZeros(p[..|p| - 1]);
    }
  }
}
