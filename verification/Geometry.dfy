/** How a torrent is cut into pieces and a piece into blocks. */
module Geometry {
  import opened Arith
  import opened Bytes

  const STANDARD_BLOCK_LENGTH: nat := 16384
  const SHA1_SIZE: nat := 20

  /** SHA-1 is any function to 20 bytes: no result here depends on which one. */
  type Hash = h: seq<byte> -> seq<byte> | forall x :: |h(x)| == SHA1_SIZE witness (x: seq<byte>) => Zeros(SHA1_SIZE)

  /** Number of pieces and length of the last piece, as `load` computes them. */
  function PieceCount(totalSize: nat, pieceLength: nat): nat
    requires pieceLength >= 1
  {
    if totalSize % pieceLength == 0 then totalSize / pieceLength else totalSize / pieceLength + 1
  }

  function LastLength(totalSize: nat, pieceLength: nat): nat
    requires pieceLength >= 1
  {
    if totalSize % pieceLength == 0 then pieceLength else totalSize % pieceLength
  }

  /** The pieces tile the content: the last one ends where the torrent ends. */
  lemma Tiling(totalSize: nat, pieceLength: nat)
    requires pieceLength >= 1 && totalSize >= 1
    ensures var n, last := PieceCount(totalSize, pieceLength), LastLength(totalSize, pieceLength);
            n >= 1 && 1 <= last <= pieceLength && (n - 1) * pieceLength + last == totalSize
  {
    var q, m := totalSize / pieceLength, totalSize % pieceLength;
    assert totalSize == q * pieceLength + m;
    if m == 0 {
      assert q >= 1;
      assert (q - 1) * pieceLength == q * pieceLength - pieceLength;
    }
  }

  /** `checkPieces` counts the pieces by rounding up; it is the same number. */
  lemma PieceCountRoundsUp(totalSize: nat, pieceLength: nat)
    requires pieceLength >= 1
    ensures (totalSize + pieceLength - 1) / pieceLength == PieceCount(totalSize, pieceLength)
  {
    var q, m := totalSize / pieceLength, totalSize % pieceLength;
    assert totalSize == q * pieceLength + m;
    if m == 0 {
      Quotient(totalSize + pieceLength - 1, q, pieceLength, pieceLength - 1);
    } else {
      assert (q + 1) * pieceLength == q * pieceLength + pieceLength;
      Quotient(totalSize + pieceLength - 1, q + 1, pieceLength, m - 1);
    }
  }

  /** The part of the info dictionary that the download engine uses, with the two numbers that `load` derives
      from it. `pieces` holds the reference hashes. */
  datatype Torrent = Torrent(
    pieceLength: nat, totalSize: nat, totalPieces: nat, lastPieceLength: nat, pieces: seq<byte>, sha1: Hash)
  {
    ghost predicate Valid() {
      && totalPieces >= 1
      && 1 <= lastPieceLength <= pieceLength
      && (totalPieces - 1) * pieceLength + lastPieceLength == totalSize
    }

    function PieceLength(piece: nat): nat {
      if piece < totalPieces - 1 then pieceLength else lastPieceLength
    }

    function Start(piece: nat): nat {
      piece * pieceLength
    }

    function BlockCount(piece: nat): nat {
      (PieceLength(piece) + STANDARD_BLOCK_LENGTH - 1) / STANDARD_BLOCK_LENGTH
    }

    /** The bytes of one piece in the flat torrent content. */
    ghost function Slice(flat: seq<byte>, piece: nat): (r: seq<byte>)
      requires Valid() && |flat| == totalSize && piece < totalPieces
      ensures |r| == PieceLength(piece)
    {
      PieceBounds(piece);
      flat[Start(piece)..Start(piece) + PieceLength(piece)]
    }

    /** The torrent gives a hash for the piece: the list of hashes is long enough. */
    predicate HasHash(piece: nat) {
      (piece + 1) * SHA1_SIZE <= |pieces|
    }

    function Reference(piece: nat): seq<byte>
      requires HasHash(piece)
    {
      pieces[piece * SHA1_SIZE..(piece + 1) * SHA1_SIZE]
    }

    /** The content has the hash that the torrent gives for the piece. */
    ghost predicate Good(content: seq<byte>, piece: nat) {
      HasHash(piece) && sha1(content) == Reference(piece)
    }

    lemma PieceBounds(piece: nat)
      requires Valid() && piece < totalPieces
      ensures 1 <= PieceLength(piece) <= pieceLength
      ensures Start(piece) + PieceLength(piece) <= totalSize
      ensures piece < totalPieces - 1 ==> Start(piece + 1) == Start(piece) + PieceLength(piece)
      ensures piece == totalPieces - 1 ==> Start(piece) + PieceLength(piece) == totalSize
    {
      assert Start(piece + 1) == Start(piece) + pieceLength;
      if piece < totalPieces - 1 {
        MulMonotone(piece + 1, totalPieces - 1, pieceLength);
      }
    }

    lemma PiecesApart(i: nat, j: nat)
      requires Valid() && i < j < totalPieces
      ensures Start(i) + PieceLength(i) <= Start(j)
    {
      PieceBounds(i);
      MulMonotone(i + 1, j, pieceLength);
    }

    lemma BlockBounds(piece: nat)
      requires Valid() && piece < totalPieces
      ensures BlockCount(piece) >= 1
      ensures (BlockCount(piece) - 1) * STANDARD_BLOCK_LENGTH < PieceLength(piece)
      ensures PieceLength(piece) <= BlockCount(piece) * STANDARD_BLOCK_LENGTH
    {
      PieceBounds(piece);
    }

    /** Writing one piece leaves the other pieces as they were. */
    lemma SliceAfterWrite(flat: seq<byte>, written: nat, data: seq<byte>, piece: nat)
      requires Valid() && |flat| == totalSize
      requires written < totalPieces && |data| == PieceLength(written)
      requires piece < totalPieces
      ensures Start(written) + |data| <= |flat|
      ensures Slice(Splice(flat, Start(written), data), piece) == if piece == written then data else Slice(flat, piece)
    {
      PieceBounds(written);
      PieceBounds(piece);
      if piece < written {
        PiecesApart(piece, written);
      } else if written < piece {
        PiecesApart(written, piece);
      }
    }

    // ---- Sums of piece lengths ----

    ghost function SumLengths(s: set<nat>, n: nat): nat {
      if n == 0 then 0 else SumLengths(s, n - 1) + if n - 1 in s then PieceLength(n - 1) else 0
    }

    ghost function AllPieces(): set<nat> {
      Upto(totalPieces)
    }

    ghost function Missing(s: set<nat>): set<nat> {
      AllPieces() - s
    }

    lemma {:induction false} SumAdd(s: set<nat>, piece: nat, n: nat)
      requires piece !in s
      ensures SumLengths(s + {piece}, n) == SumLengths(s, n) + if piece < n then PieceLength(piece) else 0
    {
      if n > 0 {
        SumAdd(s, piece, n - 1);
      }
    }

    lemma {:induction false} SumSplit(s: set<nat>, t: set<nat>, n: nat)
      requires s !! t
      ensures SumLengths(s + t, n) == SumLengths(s, n) + SumLengths(t, n)
    {
      if n > 0 {
        SumSplit(s, t, n - 1);
      }
    }

    lemma {:induction false} SumOfAll(n: nat)
      requires Valid() && n < totalPieces
      ensures SumLengths(AllPieces(), n) == n * pieceLength
    {
      if n > 0 {
        SumOfAll(n - 1);
      }
    }

    lemma SumTotal()
      requires Valid()
      ensures SumLengths(AllPieces(), totalPieces) == totalSize
    {
      SumOfAll(totalPieces - 1);
    }

    /** What is held and what is missing add up to the torrent. */
    lemma HeldPlusMissing(s: set<nat>)
      requires Valid() && s <= AllPieces()
      ensures SumLengths(s, totalPieces) + SumLengths(Missing(s), totalPieces) == totalSize
    {
      SumSplit(s, Missing(s), totalPieces);
      assert s + Missing(s) == AllPieces();
      SumTotal();
    }

    /** Taking the highest number out of a set of pieces. */
    lemma WithoutTop(s: set<nat>, n: nat)
      requires n >= 1
      ensures var t := s - {n - 1};
              && SumLengths(s, n) == SumLengths(t, n - 1) + (if n - 1 in s then PieceLength(n - 1) else 0)
              && |s| == |t| + (if n - 1 in s then 1 else 0)
              && |s| * pieceLength == |t| * pieceLength + (if n - 1 in s then pieceLength else 0)
    {
      var t := s - {n - 1};
      SumIgnoresAbove(s, t, n - 1);
      if n - 1 in s {
        assert s == t + {n - 1};
        MulStep(|s|, pieceLength);
      } else {
        assert s == t;
      }
    }

    /** Below the last piece every piece is full. */
    lemma {:induction false} SumOfFullPieces(s: set<nat>, n: nat)
      requires Valid() && n < totalPieces && forall i | i in s :: i < n
      ensures SumLengths(s, n) == |s| * pieceLength
    {
      if n == 0 {
        assert s == {};
      } else {
        hide Valid, SumLengths;
        SumOfFullPieces(s - {n - 1}, n - 1);
        WithoutTop(s, n);
      }
    }

    lemma {:induction false} SumIgnoresAbove(s: set<nat>, t: set<nat>, n: nat)
      requires forall i | 0 <= i < n :: i in s <==> i in t
      ensures SumLengths(s, n) == SumLengths(t, n)
    {
      if n > 0 {
        SumIgnoresAbove(s, t, n - 1);
      }
    }

    lemma {:induction false} SumAtMost(s: set<nat>, n: nat)
      requires Valid() && n <= totalPieces && forall i | i in s :: i < n
      ensures SumLengths(s, n) <= |s| * pieceLength
    {
      if n == 0 {
        assert s == {};
      } else {
        hide Valid, SumLengths, PieceLength;
        SumAtMost(s - {n - 1}, n - 1);
        WithoutTop(s, n);
        PieceBounds(n - 1);
      }
    }

    /** The closed form with which `load` counts the missing bytes. */
    lemma SumMissingClosedForm(s: set<nat>)
      requires Valid() && s <= AllPieces()
      ensures |s| <= totalPieces
      ensures totalPieces - 1 !in s ==> (totalPieces - |s|) * pieceLength >= pieceLength
      ensures SumLengths(Missing(s), totalPieces) == (totalPieces - |s|) * pieceLength
                - if totalPieces - 1 in s then 0 else pieceLength - lastPieceLength
    {
      var n := totalPieces;
      CardinalityOfMissing(s);
      var bad := |Missing(s)|;
      var t := Missing(s) - {n - 1};
      SumOfFullPieces(t, n - 1);
      SumIgnoresAbove(Missing(s), t, n - 1);
      assert SumLengths(Missing(s), n) == |t| * pieceLength + if n - 1 in s then 0 else lastPieceLength;
      if n - 1 in s {
        assert Missing(s) == t;
      } else {
        assert Missing(s) == t + {n - 1};
        MulAtLeast(bad, pieceLength);
        MulStep(bad, pieceLength);
      }
    }

    lemma {:induction false} SumPositive(s: set<nat>, n: nat)
      requires Valid() && n <= totalPieces && forall i | i in s :: i < n
      ensures SumLengths(s, n) == 0 <==> s == {}
    {
      if n > 0 {
        SumPositive(s - {n - 1}, n - 1);
        WithoutTop(s, n);
        PieceBounds(n - 1);
        assert n - 1 in s || s == s - {n - 1};
      }
    }

    /** Two contents with the same pieces are equal. */
    lemma SlicesDetermine(x: seq<byte>, y: seq<byte>)
      requires Valid() && |x| == |y| == totalSize
      requires forall i: nat | i < totalPieces :: Slice(x, i) == Slice(y, i)
      ensures x == y
    {
      forall j: nat | j < totalSize
        ensures x[j] == y[j]
      {
        var i := PieceAt(j);
        SliceByte(x, i, j - Start(i));
        SliceByte(y, i, j - Start(i));
      }
    }

    lemma SliceByte(x: seq<byte>, i: nat, k: nat)
      requires Valid() && |x| == totalSize && i < totalPieces && k < PieceLength(i)
      ensures Start(i) + k < |x| && Slice(x, i)[k] == x[Start(i) + k]
    {
      PieceBounds(i);
    }

    lemma PieceAt(j: nat) returns (i: nat)
      requires Valid() && j < totalSize
      ensures i < totalPieces && Start(i) <= j < Start(i) + PieceLength(i)
    {
      i := 0;
      while i + 1 < totalPieces && Start(i + 1) <= j
        invariant i < totalPieces && Start(i) <= j
        decreases totalPieces - i
      {
        i := i + 1;
      }
      PieceBounds(i);
    }

    lemma CardinalityOfMissing(s: set<nat>)
      requires Valid() && s <= AllPieces()
      ensures |Missing(s)| == totalPieces - |s|
    {
      UptoSize(totalPieces);
    }
  }
}
