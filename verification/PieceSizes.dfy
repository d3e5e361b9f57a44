/** The choice of a piece length for a new torrent, and rounding up to a power of two. */
module PieceSizes {
  import opened Arith
  import opened Words

  const MINIMUM_PIECE_LENGTH: int := 16384
  const TARGET_PIECE_COUNT_MIN: int := 1024
  const TARGET_PIECE_COUNT_MAX: int := 2048

  lemma HalfOfQuotient(x: nat, d: nat)
    requires d >= 1
    ensures x / d / 2 == x / (2 * d)
  {
    var q, m := x / d, x % d;
    assert x == q * d + m;
    assert q * d == q / 2 * (2 * d) + q % 2 * d;
    Quotient(x, q / 2, 2 * d, q % 2 * d + m);
  }

  /** The smallest length that gives fewer than 2048 full pieces; Go's division is that of Dafny for lengths >= 0,
      and a negative length is below the bound either way. */
  method ChoosePieceLength(totalLength: int) returns (pieceLength: nat, ghost k: nat)
    ensures pieceLength == MINIMUM_PIECE_LENGTH * Pow2(k)
    ensures totalLength >= 0 ==> totalLength / pieceLength < TARGET_PIECE_COUNT_MAX
    ensures totalLength >= MINIMUM_PIECE_LENGTH * TARGET_PIECE_COUNT_MIN ==>
              totalLength / pieceLength >= TARGET_PIECE_COUNT_MIN
    ensures k > 0 ==> totalLength >= MINIMUM_PIECE_LENGTH * Pow2(k - 1) * TARGET_PIECE_COUNT_MAX
  {
    pieceLength, k := 16384, 0;
    var pieces := if totalLength >= 0 then totalLength / pieceLength else -(-totalLength / pieceLength);
    while pieces >= TARGET_PIECE_COUNT_MAX
      invariant pieceLength == MINIMUM_PIECE_LENGTH * Pow2(k)
      invariant totalLength >= 0 ==> pieces == totalLength / pieceLength
      invariant totalLength < 0 ==> pieces <= 0
      invariant totalLength >= MINIMUM_PIECE_LENGTH * TARGET_PIECE_COUNT_MIN ==> pieces >= TARGET_PIECE_COUNT_MIN
      invariant k > 0 ==> totalLength >= MINIMUM_PIECE_LENGTH * Pow2(k - 1) * TARGET_PIECE_COUNT_MAX
    {
      HalfOfQuotient(totalLength, pieceLength);
      AtLeastProduct(totalLength, pieceLength, TARGET_PIECE_COUNT_MAX);
      pieceLength := 2 * pieceLength;
      pieces := pieces / 2;
      k := k + 1;
    }
  }

  lemma AtLeastProduct(x: nat, d: nat, n: nat)
    requires d >= 1 && x / d >= n
    ensures x >= d * n
  {
    assert x == x / d * d + x % d;
    MulMonotone(n, x / d, d);
  }

  // ---- Rounding up ----

  const WORD: nat := 64

  /** v |= v >> n */
  function Fold(x: seq<bool>, n: nat): (r: seq<bool>)
    ensures |r| == |x|
  {
    Or(x, ShiftRight(x, n))
  }

  /** Each bit of y tells whether one of the last w bits of x up to that place is set. */
  ghost predicate Window(x: seq<bool>, y: seq<bool>, w: nat) {
    |y| == |x| && forall i | 0 <= i < |x| :: y[i] <==> exists j :: 0 <= j <= i && i - w < j && x[j]
  }

  /** Folding by no more than the width of the window widens it. */
  lemma FoldWidens(x: seq<bool>, y: seq<bool>, w: nat, n: nat)
    requires Window(x, y, w) && n <= w
    ensures Window(x, Fold(y, n), w + n)
  {
    var z := Fold(y, n);
    forall i | 0 <= i < |x|
      ensures z[i] <==> exists j :: 0 <= j <= i && i - (w + n) < j && x[j]
    {
      assert z[i] <==> y[i] || (i >= n && y[i - n]);
      if j :| 0 <= j <= i && i - (w + n) < j && x[j] {
        if i - w < j {
          assert y[i];
        } else {
          assert y[i - n];
        }
      }
    }
  }

  /** The body of the function on the 64 bits of v - 1; the last increment may overflow to zero. */
  method RoundUpToPowerOfTwo(v: nat) returns (r: nat)
    requires v < Pow2(WORD)
    ensures IsRoundedUp(v, r, WORD)
  {
    var x := BitsOf((v - 1) % Pow2(WORD), WORD);
    var y := x;
    assert Window(x, y, 1);
    FoldWidens(x, y, 1, 1);
    y := Fold(y, 1);
    FoldWidens(x, y, 2, 2);
    y := Fold(y, 2);
    FoldWidens(x, y, 4, 4);
    y := Fold(y, 4);
    FoldWidens(x, y, 8, 8);
    y := Fold(y, 8);
    FoldWidens(x, y, 16, 16);
    y := Fold(y, 16);
    FoldWidens(x, y, 32, 32);
    y := Fold(y, 32);
    r := (Value(y) + 1) % Pow2(WORD);
    ValueOfBits((v - 1) % Pow2(WORD), WORD);
    SmearedValue(x, y, v, WORD);
  }

  /** The number of leading zeros. */
  function LeadingZeros(x: seq<bool>): (n: nat)
    ensures n <= |x| && (forall i | 0 <= i < n :: !x[i]) && (n < |x| ==> x[n])
  {
    if x == [] || x[0] then 0 else 1 + LeadingZeros(x[1..])
  }

  lemma SmearedIsOnes(x: seq<bool>, y: seq<bool>, zeros: nat)
    requires Window(x, y, |x|) && zeros <= |x| && (forall i | 0 <= i < zeros :: !x[i]) && (zeros < |x| ==> x[zeros])
    ensures ZerosThenOnes(y, zeros)
  {
  }

  /** v is rounded up to r in words of n bits. */
  ghost predicate IsRoundedUp(v: nat, r: nat, n: nat)
    requires n >= 1
  {
    if 1 <= v <= Pow2(n - 1) then exists k: nat :: k < n && IsLeastPower(v, r, k) else r == 0
  }

  ghost predicate IsLeastPower(v: nat, r: nat, k: nat) {
    r == Pow2(k) && v <= r && (k > 0 ==> Pow2(k - 1) < v)
  }

  /** v - 1 as an unsigned word below m. */
  lemma PredecessorWord(v: nat, m: nat)
    requires v < m
    ensures (v - 1) % m == if v == 0 then m - 1 else v - 1
  {
    if v > 0 {
      Quotient(v - 1, 0, m, v - 1);
    } else {
      MinusOne(m);
    }
  }

  lemma MinusOne(m: nat)
    requires m >= 1
    ensures -1 % m == m - 1
  {
    var q, r := -1 / m, -1 % m;
    assert -1 == q * m + r;
    if q <= -2 {
      MulMonotone(q, -2, m);
    }
  }

  /** The successor of a word, which may overflow to zero. */
  lemma SuccessorWord(p: nat, m: nat)
    requires 1 <= p <= m
    ensures p % m == if p == m then 0 else p
  {
    if p == m {
      Quotient(p, 1, m, 0);
    } else {
      Quotient(p, 0, m, p);
    }
  }

  lemma SmearedValue(x: seq<bool>, y: seq<bool>, v: nat, n: nat)
    requires n >= 1 && |x| == n && Window(x, y, n) && v < Pow2(n) && Value(x) == (v - 1) % Pow2(n)
    ensures IsRoundedUp(v, (Value(y) + 1) % Pow2(n), n)
  {
    var k := n - LeadingZeros(x);
    TopBit(x, y, k);
    RoundedWord(v, k, n, Value(x), Value(y));
  }

  /** The top bit of x says what is left after smearing it down. */
  lemma TopBit(x: seq<bool>, y: seq<bool>, k: nat)
    requires Window(x, y, |x|) && k == |x| - LeadingZeros(x)
    ensures if k == 0 then Value(x) == 0 else Pow2(k - 1) <= Value(x) < Pow2(k)
    ensures Value(y) + 1 == Pow2(k)
  {
    SmearedIsOnes(x, y, |x| - k);
    ValueOfOnes(y, |x| - k);
    if k > 0 {
      ValueBounds(x, |x| - k);
    } else {
      ValueOfZeros(x);
    }
  }

  lemma RoundedWord(v: nat, k: nat, n: nat, w: nat, ones: nat)
    requires n >= 1 && k <= n && v < Pow2(n) && w == (v - 1) % Pow2(n) && ones + 1 == Pow2(k)
    requires if k == 0 then w == 0 else Pow2(k - 1) <= w < Pow2(k)
    ensures IsRoundedUp(v, (ones + 1) % Pow2(n), n)
  {
    PredecessorWord(v, Pow2(n));
    Pow2Monotone(k, n);
    SuccessorWord(Pow2(k), Pow2(n));
    LeadingBit(v, k, n);
  }

  /** If the top bit of v - 1 is bit k - 1, then v rounds up to 2^k, which is zero as a word if k is n. */
  lemma LeadingBit(v: nat, k: nat, n: nat)
    requires n >= 1 && k <= n && v < Pow2(n)
    requires var w := if v == 0 then Pow2(n) - 1 else v - 1;
             if k == 0 then w == 0 else Pow2(k - 1) <= w < Pow2(k)
    ensures IsRoundedUp(v, if Pow2(k) == Pow2(n) then 0 else Pow2(k), n)
  {
    assert Pow2(n) == 2 * Pow2(n - 1);
    if k < n {
      Pow2Monotone(k, n - 1);
      assert IsLeastPower(v, Pow2(k), k);
    }
  }

  /** A power of two is left alone. */
  lemma {:induction false} PowerIsFixed(k: nat, r: nat, n: nat)
    requires k < n && IsRoundedUp(Pow2(k), r, n)
    ensures r == Pow2(k)
  {
    Pow2Monotone(k, n - 1);
    var l: nat :| l < n && IsLeastPower(Pow2(k), r, l);
    if l < k {
      Pow2Monotone(l + 1, k);
    } else if k < l {
      Pow2Monotone(k, l - 1);
    }
  }

  lemma {:induction false} Pow2Sum(j: nat, k: nat)
    ensures Pow2(j + k) == Pow2(j) * Pow2(k)
  {
    if j > 0 {
      Pow2Sum(j - 1, k);
    }
  }

  lemma SomePowers()
    ensures Pow2(14) == 16384 && Pow2(38) == 0x40_0000_0000
  {
    Pow2Sum(14, 12);
    Pow2Sum(26, 12);
  }

  /** Every piece length chosen for a 64-bit total is a power of two below 2^63, which rounding up leaves alone. */
  lemma ChosenIsFixed(totalLength: int, pieceLength: nat, k: nat, r: nat)
    requires totalLength < 0x8000_0000_0000_0000 && pieceLength == MINIMUM_PIECE_LENGTH * Pow2(k)
    requires k > 0 ==> totalLength >= MINIMUM_PIECE_LENGTH * Pow2(k - 1) * TARGET_PIECE_COUNT_MAX
    requires IsRoundedUp(pieceLength, r, WORD)
    ensures r == pieceLength
  {
    SomePowers();
    if k > 38 {
      Pow2Monotone(38, k - 1);
    }
    Pow2Sum(14, k);
    PowerIsFixed(14 + k, r, WORD);
  }
}
