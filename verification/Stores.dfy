/** What a session stores its pieces in: a file store, with or without a RAM cache on it. */
module Stores {
  import opened Arith
  import opened Bytes
  import opened Files
  import opened Geometry
  import opened RamCaches
  import opened SessionState

  /** A box of the cache is a piece of the torrent. */
  lemma BoxIsPiece(t: Torrent, flat: seq<byte>, i: nat)
    requires t.Valid() && |flat| == t.totalSize
    ensures BoxStart(t.pieceLength, i) == t.Start(i)
    ensures i < t.totalPieces ==> BoxSlice(flat, t.pieceLength, i) == t.Slice(flat, i)
    ensures i < t.totalPieces <==> t.Start(i) < t.totalSize
  {
    if i < t.totalPieces {
      t.PieceBounds(i);
    } else {
      t.PieceBounds(t.totalPieces - 1);
      MulMonotone(t.totalPieces, i, t.pieceLength);
      MulStep(t.totalPieces, t.pieceLength);
    }
  }

  /** A range within one piece meets no other box. */
  lemma OnlyBox(pieceLength: nat, piece: nat, begin: nat, length: nat, i: nat)
    requires begin < pieceLength && begin + length <= pieceLength
    requires BoxStart(pieceLength, i) < BoxStart(pieceLength, piece) + begin + length
    requires BoxStart(pieceLength, piece) + begin < BoxStart(pieceLength, i) + pieceLength
    ensures i == piece
  {
    if i != piece {
      BoxesApart(pieceLength, i, piece);
    }
  }

  datatype Store = Plain(files: FileStore) | Cached(cache: RamCache) {

    function Files(): FileStore {
      if Plain? then files else cache.underlying
    }

    ghost function Objects(): set<object>
      reads Files()
    {
      Files().Arrays() + {Files()} + if Plain? then {} else {cache}
    }

    ghost function Contents(): seq<byte>
      reads Objects()
    {
      Files().contents
    }

    ghost function Boxes(): map<nat, seq<byte>>
      reads Objects()
    {
      if Plain? then map[] else cache.Boxes()
    }

    ghost predicate Valid(t: Torrent)
      reads Files(), Objects()
    {
      && t.Valid() && Files().Valid() && Files().pieceSize == t.pieceLength && |Contents()| == t.totalSize
      && (Cached? ==> cache.Valid() && cache.pieceSize == t.pieceLength)
    }

    lemma OnlyStores()
      ensures forall o | o in Objects() :: o is FileStore || o is RamCache || o is array<byte>
    {
    }

    lemma BoxesAreSlices(t: Torrent)
      requires Valid(t)
      ensures forall i | i in Boxes() :: i < t.totalPieces && Boxes()[i] == t.Slice(Contents(), i)
    {
      forall i | i in Boxes()
        ensures i < t.totalPieces && Boxes()[i] == t.Slice(Contents(), i)
      {
        BoxIsPiece(t, Contents(), i);
      }
    }

    /** A read within a piece. A store without a cache pads with zeros where a cache runs out of boxes. */
    method ReadAt(t: Torrent, p: array<byte>, lo: nat, piece: nat, begin: nat, now: int) returns (ok: bool)
      requires Valid(t) && lo <= p.Length && p !in Files().Arrays() && piece < t.totalPieces
      requires begin < t.pieceLength && begin + (p.Length - lo) <= t.pieceLength
      modifies p, if Plain? then {} else {cache}
      ensures Valid(t) && Objects() == old(Objects()) && Contents() == old(Contents())
      ensures ok <==> Plain? || lo == p.Length || t.Start(piece) + begin + (p.Length - lo) <= t.totalSize
      ensures ok ==> p[..] == old(p[..lo]) + PaddedRead(Contents(), t.Start(piece) + begin, p.Length - lo)
      ensures forall i | i in Boxes() :: i in old(Boxes()) || i == piece
    {
      var off := t.Start(piece) + begin;
      if Plain? {
        ok := true;
        var _ := files.ReadAt(p, lo, p.Length, off);
      } else {
        ok := cache.ReadAt(p, lo, p.Length, off, now);
        forall i | i in Boxes() && i !in old(Boxes())
          ensures i == piece
        {
          OnlyBox(t.pieceLength, piece, begin, p.Length - lo, i);
        }
      }
    }

    /** A header and the bytes of a range within a piece, in one message. */
    method ReadMessage(t: Torrent, header: seq<byte>, piece: nat, begin: nat, length: nat, now: int)
      returns (ok: bool, message: seq<byte>)
      requires Valid(t) && piece < t.totalPieces && begin < t.pieceLength && begin + length <= t.pieceLength
      modifies if Plain? then {} else {cache}
      ensures Valid(t) && Objects() == old(Objects()) && Contents() == old(Contents())
      ensures ok <==> Plain? || length == 0 || begin + length <= t.PieceLength(piece)
      ensures ok ==> message == header + PaddedRead(Contents(), t.Start(piece) + begin, length)
      ensures forall i | i in Boxes() :: i in old(Boxes()) || i == piece
    {
      var n := |header|;
      var buf := new byte[n + length](i requires 0 <= i => if i < n then header[i] else 0);
      assert buf[..n] == header;
      t.PieceBounds(piece);
      ok := ReadAt(t, buf, n, piece, begin, now);
      message := buf[..];
    }

    /** The piece is written unless the cache holds it already. */
    method WritePiece(t: Torrent, content: seq<byte>, piece: nat, now: int)
      requires Valid(t) && piece < t.totalPieces && |content| == t.PieceLength(piece)
      modifies Objects()
      ensures Valid(t) && Objects() == old(Objects())
      ensures t.Start(piece) + |content| <= |old(Contents())|
      ensures old(piece in Boxes()) ==> Contents() == old(Contents()) && Boxes() == old(Boxes())
      ensures old(piece !in Boxes()) ==>
        && Contents() == Splice(old(Contents()), t.Start(piece), content)
        && forall i | i in Boxes() :: i in old(Boxes()) || i == piece
    {
      t.PieceBounds(piece);
      BoxIsPiece(t, Contents(), piece);
      OverlayInRange(Contents(), t.Start(piece), content);
      if Plain? {
        var _, _ := files.WritePiece(content, piece);
      } else {
        var _, _ := cache.WritePiece(content, piece, now);
      }
    }
  }
}
