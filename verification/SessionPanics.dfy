/** Which torrents let a message panic, decided from the torrent and the store alone. */
module SessionPanics {
  import opened Arith
  import opened Bytes
  import opened Geometry
  import opened SessionState
  import opened SessionInvariant
  import opened SessionSteps
  import opened SessionLimits
  import opened SessionWitness
  import opened SessionBlocks
  import opened SessionWire
  import Bitsets

  /** In some state that the session can be in, a message with this identifier makes the program panic. */
  ghost predicate CanPanic(c: Config, id: byte)
    requires c.Valid()
  {
    exists s, a, m :: Reachable(c, s) && Panics(c, s, a, m) && m[0] == id
  }

  /** Some block that the checks of PIECE let through starts outside the last piece: the last piece is shorter than the
      others, by more than the one byte that a block may start at without harm. */
  predicate ShortLastPiece(t: Torrent) {
    && t.lastPieceLength < t.pieceLength
    && (t.lastPieceLength < t.pieceLength - 1 || t.lastPieceLength % STANDARD_BLOCK_LENGTH == 0)
  }

  // ---- PIECE ----

  lemma PanickingBlock(c: Config, s: State, a: Address, m: seq<byte>)
    requires Panics(c, s, a, m) && m[0] == PIECE
    ensures |m| >= 9 && Field(m, 1) < c.t.totalPieces && Field(m, 5) < c.t.pieceLength
    ensures Field(m, 5) > c.t.PieceLength(Field(m, 1))
            || Field(m, 5) / STANDARD_BLOCK_LENGTH >= c.t.BlockCount(Field(m, 1)) || !c.t.HasHash(Field(m, 1))
  {
    hide Field, LastMissing, Torrent.PieceLength, Torrent.BlockCount, CheckOurBlock, Bitsets.Decode;
  }

  lemma PiecePanicsOnlyIf(c: Config, s: State, a: Address, m: seq<byte>)
    requires c.Valid() && Panics(c, s, a, m) && m[0] == PIECE
    ensures ShortLastPiece(c.t) || !c.t.HasHash(c.t.totalPieces - 1)
  {
    hide Field, Panics;
    PanickingBlock(c, s, a, m);
    c.t.BlockBounds(Field(m, 1));
  }

  /** The message brings no bytes for the piece, at this position. */
  ghost predicate EmptyBlock(m: seq<byte>, piece: nat, begin: nat) {
    |m| == 9 && m[0] == PIECE && Field(m, 1) == piece && Field(m, 5) == begin && m[9..] == []
  }

  lemma MakeEmptyBlock(piece: nat, begin: nat) returns (m: seq<byte>)
    requires piece < TWO_TO_THE_32 && begin < TWO_TO_THE_32
    ensures EmptyBlock(m, piece, begin)
  {
    hide Wire, Field;
    m := PieceMessage(piece, begin, []);
    assert m == [PIECE] + Wire(piece) + Wire(begin);
    WireField(m, 1, piece);
    WireField(m, 5, begin);
  }

  lemma PiecePanics(c: Config, s: State, a: Address, m: seq<byte>, k: nat, begin: nat)
    requires At(c, s, a) && EmptyBlock(m, k, begin) && k in s.active && begin < c.t.pieceLength
    requires begin > c.t.PieceLength(k) || begin / STANDARD_BLOCK_LENGTH >= c.t.BlockCount(k)
             || (LastMissing(s, k, begin) && !c.t.HasHash(k))
    ensures CanPanic(c, PIECE)
  {
    hide Field, LastMissing, Torrent.HasHash, Torrent.PieceLength, Torrent.BlockCount, Reachable, Inv;
    hide CheckPieceMessage, CheckOurBlock, Bitsets.Decode;
    EmptyBlockAccepted(c, s, m, k, begin);
    assert Panics(c, s, a, m);
  }

  /** A block without bytes passes the checks wherever a block may start. */
  lemma EmptyBlockAccepted(c: Config, s: State, m: seq<byte>, k: nat, begin: nat)
    requires c.Valid() && Inv(c, s) && k in s.active && begin < c.t.pieceLength && EmptyBlock(m, k, begin)
    ensures k < c.t.totalPieces && k !in s.pieceSet && CheckPieceMessage(c, s, m) == None
  {
    hide Field;
    assert ActiveOk(c, s.pieceSet, k, s.active[k]);
  }

  lemma OutsideLastPiece(c: Config) returns (begin: nat)
    requires c.Valid() && ShortLastPiece(c.t)
    ensures begin < c.t.pieceLength
    ensures var last := c.t.totalPieces - 1;
            begin > c.t.PieceLength(last) || begin / STANDARD_BLOCK_LENGTH >= c.t.BlockCount(last)
  {
    c.t.BlockBounds(c.t.totalPieces - 1);
    begin := if c.t.lastPieceLength < c.t.pieceLength - 1 then c.t.lastPieceLength + 1 else c.t.lastPieceLength;
  }

  /** With a short last piece: it is being downloaded, and a block arrives that starts outside it. */
  lemma ShortPiecePanics(c: Config)
    requires c.Valid() && ShortLastPiece(c.t)
    ensures CanPanic(c, PIECE)
  {
    hide *;
    SomePieces(c);
    var last := c.t.totalPieces - 1;
    var s, a := Downloading(c, last, 0);
    var begin := OutsideLastPiece(c);
    SmallNumbers(c, begin);
    var m := MakeEmptyBlock(last, begin);
    PiecePanics(c, s, a, m, last, begin);
  }

  lemma SmallNumbers(c: Config, begin: nat)
    requires c.Valid() && begin < c.t.pieceLength
    ensures c.t.totalPieces - 1 < TWO_TO_THE_32 && begin < TWO_TO_THE_32
  {
  }

  lemma SomePieces(c: Config)
    requires c.Valid()
    ensures 1 <= c.t.totalPieces < TWO_TO_THE_32
  {
  }

  /** The block is recorded, and its piece is not complete. */
  lemma RecordedBlock(c: Config, s: State, a: Address, k: nat, b: nat, m: seq<byte>) returns (s1: State)
    requires c.Valid() && Inv(c, s) && a in s.peers && k in s.active && b < |s.active[k].counts|
    requires !LastMissing(s, k, b * STANDARD_BLOCK_LENGTH) && EmptyBlock(m, k, b * STANDARD_BLOCK_LENGTH)
    ensures Records(c, s, a, m, s1) && InBuffer(c, m) && !Hashless(c, s, m) && a in s1.peers && k in s1.active
    ensures s1.active[k].counts == s.active[k].counts[b := -1]
  {
    hide Field, Inv;
    var begin := b * STANDARD_BLOCK_LENGTH;
    BlockStart(c, s, k, b);
    EmptyBlockAccepted(c, s, m, k, begin);
    s1 := Marked(c, Copied(s, k, begin, []), a, k, begin);
    RecordsBlock(c, s, a, m, s1);
  }

  /** One more block of a piece arrives that leaves others missing. */
  lemma OneBlock(c: Config, s: State, a: Address, k: nat, b: nat) returns (s': State)
    requires At(c, s, a) && k in s.active && b < |s.active[k].counts| && s.active[k].counts[b] != -1
    requires !LastMissing(s, k, b * STANDARD_BLOCK_LENGTH)
    ensures At(c, s', a) && k in s'.active
    ensures MissingBlocks(s'.active[k].counts) == MissingBlocks(s.active[k].counts) - {b}
  {
    hide Field, Inv, Reachable, Handled, LastMissing, Records, Requests, InBuffer, Hashless, RequestBlock;
    var begin := b * STANDARD_BLOCK_LENGTH;
    BlockStart(c, s, k, b);
    var m := MakeEmptyBlock(k, begin);
    EmptyBlockAccepted(c, s, m, k, begin);
    AtArrives(c, s, a, m);
    var s1 := RecordedBlock(c, s, a, k, b, m);
    RecordsSound(c, s, a, m, s1);
    SoundInv(c, s1);
    var s2 := RequestPossible(c, s1, a, 0);
    RequestsBlock(c, s1, a, 0, s2);
    RequestBlockKept(c, s1, a, 0, s2);
    SameMissing(s1.active[k], s2.active[k]);
    RequestBlockFrame(c, s1, a, 0, s2);
    ReceiveHandled(c, s, a, m, 0, s1, s2);
    s' := Late(s2, a);
    AfterHandled(c, s, a, m, 0, s');
  }

  /** Without a hash for a piece that is being downloaded: its blocks arrive one after the other, and the last one
      panics. */
  lemma {:induction false} LastBlockPanics(c: Config, s: State, a: Address, k: nat)
    requires At(c, s, a) && k in s.active && !c.t.HasHash(k)
    ensures CanPanic(c, PIECE)
    decreases MissingBlocks(s.active[k].counts)
  {
    hide Field, Inv, Reachable, LastMissing, CanPanic, Config.Valid, Torrent.HasHash;
    var b := SomeMissing(c, s, k);
    BlockStart(c, s, k, b);
    if LastMissing(s, k, b * STANDARD_BLOCK_LENGTH) {
      SomePieces(c);
      var m := MakeEmptyBlock(k, b * STANDARD_BLOCK_LENGTH);
      PiecePanics(c, s, a, m, k, b * STANDARD_BLOCK_LENGTH);
    } else {
      var s' := OneBlock(c, s, a, k, b);
      LastBlockPanics(c, s', a, k);
    }
  }

  /** A PIECE message can panic if and only if the last piece is short or has no hash. */
  lemma WhenPiecePanics(c: Config)
    requires c.Valid()
    ensures CanPanic(c, PIECE) <==> ShortLastPiece(c.t) || !c.t.HasHash(c.t.totalPieces - 1)
  {
    hide Reachable, Inv, Config.Valid, ShortLastPiece, Torrent.HasHash, CheckMessage, Crashes;
    SomePieces(c);
    if CanPanic(c, PIECE) {
      var s, a, m :| Reachable(c, s) && Panics(c, s, a, m) && m[0] == PIECE;
      PiecePanicsOnlyIf(c, s, a, m);
    }
    if ShortLastPiece(c.t) {
      ShortPiecePanics(c);
    }
    if !c.t.HasHash(c.t.totalPieces - 1) {
      var s, a := Downloading(c, c.t.totalPieces - 1, 0);
      LastBlockPanics(c, s, a, c.t.totalPieces - 1);
    }
  }

  // ---- REQUEST ----

  lemma EverythingAccounted(c: Config)
    requires c.Valid()
    ensures |c.t.AllPieces()| == c.t.totalPieces
    ensures Accounting(c.t, c.t.AllPieces(), c.t.totalPieces, 0)
  {
    c.t.CardinalityOfMissing(c.t.AllPieces());
    assert c.t.Missing(c.t.AllPieces()) == {};
    c.t.SumPositive({}, c.t.totalPieces);
  }

  /** The only peer becomes interested and is unchoked. */
  lemma Interested(c: Config, s: State, a: Address) returns (s': State)
    requires At(c, s, a) && s.peers.Keys == {a}
    ensures At(c, s', a) && !s'.peers[a].amChoking && s'.pieceSet == s.pieceSet
  {
    var s0 := WithPeer(s, a, s.peers[a].(peerInterested := true));
    assert InterestedPeers(s0.peers) == {a};
    var s1 := s0.(peers := Rechoked(s0.peers, {a}));
    assert ChokePeers(s0, s1);
    AtArrives(c, s, a, [INTERESTED]);
    InterestHandled(c, s, a, [INTERESTED], 0, true, s1);
    s' := Late(s1, a);
    AfterHandled(c, s, a, [INTERESTED], 0, s');
  }

  ghost predicate AsksFor(m: seq<byte>, piece: nat, begin: nat, length: nat) {
    |m| == 13 && m[0] == REQUEST && Field(m, 1) == piece && Field(m, 5) == begin && Field(m, 9) == length
  }

  lemma MakeRequest(piece: nat, begin: nat, length: nat) returns (m: seq<byte>)
    requires piece < TWO_TO_THE_32 && begin < TWO_TO_THE_32 && length < TWO_TO_THE_32
    ensures AsksFor(m, piece, begin, length)
  {
    hide Wire, Field;
    m := [REQUEST] + Wire(piece) + Wire(begin) + Wire(length);
    WireField(m, 1, piece);
    WireField(m, 5, begin);
    WireField(m, 9, length);
  }

  lemma RequestPanics(c: Config, s: State, a: Address, m: seq<byte>)
    requires At(c, s, a) && !s.peers[a].amChoking && c.cached && c.t.lastPieceLength < c.t.pieceLength
    requires s.pieceSet == c.t.AllPieces() && AsksFor(m, c.t.totalPieces - 1, 0, c.t.pieceLength)
    ensures CanPanic(c, REQUEST)
  {
    hide Field, Inv, Reachable;
    assert Panics(c, s, a, m);
  }

  /** With a cache and a short last piece: all pieces are here, and a full piece is asked for at the end. */
  lemma ShortReadPanics(c: Config)
    requires c.Valid() && c.cached && c.t.lastPieceLength < c.t.pieceLength
    ensures CanPanic(c, REQUEST)
  {
    hide Inv, Reachable, AsksFor, CanPanic;
    EverythingAccounted(c);
    var s0, a := Connected(c, c.t.AllPieces(), 0);
    var s := Interested(c, s0, a);
    var m := MakeRequest(c.t.totalPieces - 1, 0, c.t.pieceLength);
    RequestPanics(c, s, a, m);
  }

  /** A REQUEST message can panic if and only if there is a cache and the last piece is shorter than the others. */
  lemma WhenRequestPanics(c: Config)
    requires c.Valid()
    ensures CanPanic(c, REQUEST) <==> c.cached && c.t.lastPieceLength < c.t.pieceLength
  {
    if CanPanic(c, REQUEST) {
      var s, a, m :| Reachable(c, s) && Panics(c, s, a, m) && m[0] == REQUEST;
    }
    if c.cached && c.t.lastPieceLength < c.t.pieceLength {
      ShortReadPanics(c);
    }
  }

  // ---- All messages ----

  /** An extension message without a payload panics in every state with a peer. */
  lemma EmptyExtensionPanics(c: Config)
    requires c.Valid()
    ensures CanPanic(c, EXTENSION)
  {
    NothingAccounted(c);
    var s, a := Connected(c, {}, c.t.totalSize);
    assert Panics(c, s, a, [EXTENSION]);
  }

  /** Which messages can panic at all, for which torrents and stores. */
  lemma WhenMessagesPanic(c: Config, id: byte)
    requires c.Valid()
    ensures CanPanic(c, id) <==>
              || id == EXTENSION
              || (id == PIECE && (ShortLastPiece(c.t) || !c.t.HasHash(c.t.totalPieces - 1)))
              || (id == REQUEST && c.cached && c.t.lastPieceLength < c.t.pieceLength)
  {
    hide ShortLastPiece, Torrent.HasHash, Reachable, Crashes, CheckMessage;
    EmptyExtensionPanics(c);
    WhenPiecePanics(c);
    WhenRequestPanics(c);
    if id != EXTENSION && id != PIECE && id != REQUEST && CanPanic(c, id) {
      var s, a, m :| Reachable(c, s) && Panics(c, s, a, m) && m[0] == id;
      OnlyThreePanic(c, s, a, m);
    }
  }

  lemma OnlyThreePanic(c: Config, s: State, a: Address, m: seq<byte>)
    requires Panics(c, s, a, m)
    ensures m[0] == EXTENSION || m[0] == PIECE || m[0] == REQUEST
  {
    hide CheckMessage;
  }
}
