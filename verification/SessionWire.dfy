/** The messages between peers by their fields and bits, as BEP 3 lays them out: what is on the wire, apart from the
    functions that build and read it. */
module SessionWire {
  import opened Arith
  import opened Bytes
  import opened Geometry
  import opened SessionState
  import opened Words
  import Bitsets

  /** REQUEST or CANCEL: the block of this length at this place. */
  ghost predicate IsBlock(m: seq<byte>, id: byte, piece: nat, begin: nat, length: int) {
    |m| == 13 && m[0] == id && Field(m, 1) == piece && Field(m, 5) == begin && Field(m, 9) == length
  }

  ghost predicate IsHave(m: seq<byte>, piece: nat) {
    |m| == 5 && m[0] == HAVE && Field(m, 1) == piece
  }

  ghost predicate IsPiece(m: seq<byte>, piece: nat, begin: nat, data: seq<byte>) {
    |m| >= 9 && m[0] == PIECE && Field(m, 1) == piece && Field(m, 5) == begin && m[9..] == data
  }

  /** Bit i of the payload: the high bit of its first byte is bit 0. */
  ghost predicate HasBit(m: seq<byte>, i: nat) {
    1 + i / 8 < |m| && m[1 + i / 8] as int / Pow2(7 - i % 8) % 2 == 1
  }

  /** One bit for each piece, and zeros up to the end of the last byte. */
  ghost predicate IsBitfield(c: Config, m: seq<byte>) {
    && |m| == 1 + (c.t.totalPieces + 7) / 8 && m[0] == BITFIELD
    && forall i: nat | c.t.totalPieces <= i :: !HasBit(m, i)
  }

  ghost function Bits(c: Config, m: seq<byte>): (pieces: set<nat>)
    ensures forall i: nat :: i in pieces <==> i < c.t.totalPieces && HasBit(m, i)
  {
    set i: nat | i < c.t.totalPieces && HasBit(m, i)
  }

  /** How much of the piece a request for the block at `begin` asks for. */
  function BlockSize(c: Config, piece: nat, begin: nat): int {
    var rest := c.t.lastPieceLength - begin;
    if piece == c.t.totalPieces - 1 && rest < STANDARD_BLOCK_LENGTH then rest else STANDARD_BLOCK_LENGTH
  }

  /** One message more, which asks for the block or cancels it. */
  ghost predicate SendsBlock(c: Config, before: seq<seq<byte>>, after: seq<seq<byte>>, id: byte, piece: nat,
                             begin: nat)
  {
    && |after| == |before| + 1 && before <= after
    && IsBlock(after[|before|], id, piece, begin, BlockSize(c, piece, begin))
  }

  /** One message more, which names the piece. */
  ghost predicate SendsHave(before: seq<seq<byte>>, after: seq<seq<byte>>, piece: nat) {
    |after| == |before| + 1 && before <= after && IsHave(after[|before|], piece)
  }

  // ---- The functions that build messages ----

  lemma WireField(m: seq<byte>, i: nat, n: nat)
    requires i + 4 <= |m| && n < TWO_TO_THE_32 && m[i..i + 4] == Wire(n)
    ensures Field(m, i) == n
  {
    Uint32RoundTrip(n);
  }

  lemma BlockFits(c: Config, piece: nat, block: nat)
    requires c.Valid() && piece < c.t.totalPieces && block < c.t.BlockCount(piece)
    ensures block * STANDARD_BLOCK_LENGTH < c.t.PieceLength(piece) < TWO_TO_THE_32
    ensures block * STANDARD_BLOCK_LENGTH / STANDARD_BLOCK_LENGTH == block
    ensures RequestLength(c, piece, block) == BlockSize(c, piece, block * STANDARD_BLOCK_LENGTH)
    ensures 0 < BlockSize(c, piece, block * STANDARD_BLOCK_LENGTH) <= STANDARD_BLOCK_LENGTH
  {
    c.t.BlockBounds(piece);
    c.t.PieceBounds(piece);
  }

  lemma BlockWired(c: Config, id: byte, piece: nat, block: nat)
    requires c.Valid() && piece < c.t.totalPieces && block < c.t.BlockCount(piece)
    ensures var begin := block * STANDARD_BLOCK_LENGTH;
            IsBlock(RequestMessage(c, id, piece, block), id, piece, begin, BlockSize(c, piece, begin))
  {
    hide Wire, Field, RequestLength, Torrent.BlockCount, BlockSize;
    var m := RequestMessage(c, id, piece, block);
    BlockFits(c, piece, block);
    WireField(m, 1, piece);
    WireField(m, 5, block * STANDARD_BLOCK_LENGTH);
    WireField(m, 9, RequestLength(c, piece, block));
  }

  lemma HaveWired(piece: nat)
    requires piece < TWO_TO_THE_32
    ensures IsHave(HaveMessage(piece), piece)
  {
    hide Wire, Field;
    WireField(HaveMessage(piece), 1, piece);
  }

  lemma PieceWired(piece: nat, begin: nat, data: seq<byte>)
    requires piece < TWO_TO_THE_32 && begin < TWO_TO_THE_32
    ensures IsPiece(PieceMessage(piece, begin, data), piece, begin, data)
  {
    hide Wire, Field;
    var m := PieceMessage(piece, begin, data);
    WireField(m, 1, piece);
    WireField(m, 5, begin);
    assert m[9..] == data;
  }

  lemma BitOfPayload(m: seq<byte>, i: nat)
    requires m != []
    ensures HasBit(m, i) <==> i < 8 * (|m| - 1) && Bitsets.BitAt(m[1..], i)
  {
    if i < 8 * (|m| - 1) {
      assert m[1..][i / 8] == m[1 + i / 8];
      BitIsDigit(m[1 + i / 8] as int, 8, i % 8);
    }
  }

  /** What is accepted as a bitfield, and the pieces it stands for. */
  lemma BitfieldRead(c: Config, m: seq<byte>)
    requires m != [] && m[0] == BITFIELD
    ensures IsBitfield(c, m) <==> Bitsets.Decode(c.t.totalPieces, m[1..]).Some?
    ensures IsBitfield(c, m) ==> Bitsets.Decode(c.t.totalPieces, m[1..]) == Some(Bits(c, m))
  {
    hide HasBit, Bitsets.BitAt;
    forall i: nat
      ensures HasBit(m, i) <==> i < 8 * (|m| - 1) && Bitsets.BitAt(m[1..], i)
    {
      BitOfPayload(m, i);
    }
    if IsBitfield(c, m) {
      assert Bitsets.ElemsOf(c.t.totalPieces, m[1..]) == Bits(c, m);
    }
  }

  /** The bitfield that is sent names exactly the pieces that we have. */
  lemma BitfieldWired(c: Config, pieces: set<nat>)
    requires c.Valid() && pieces <= c.t.AllPieces()
    ensures IsBitfield(c, BitfieldMessage(c, pieces)) && Bits(c, BitfieldMessage(c, pieces)) == pieces
  {
    hide Bitsets.Encode, Bitsets.Decode;
    Bitsets.DecodeEncode(c.t.totalPieces, pieces);
    var m := BitfieldMessage(c, pieces);
    assert m[1..] == Bitsets.Encode(c.t.totalPieces, pieces);
    BitfieldRead(c, m);
  }
}
