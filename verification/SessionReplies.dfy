/** What each message and each other event makes the session do, told by the fields and bits of the messages that come
    and go: who is answered and with what, who is told, who is cut off. */
module SessionReplies {
  import opened Arith
  import opened Bytes
  import opened Geometry
  import opened SessionState
  import opened SessionInvariant
  import opened SessionRun
  import opened SessionWire
  import Bitsets
  import SessionSteps
  import SessionTheorems

  /** The message comes from a connected peer and is handled without a panic. */
  ghost predicate Gets(c: Config, s: State, a: Address, m: seq<byte>, now: int, s': State) {
    && c.Valid() && Inv(c, s) && a in s.peers && m != []
    && Step(c, s, Message(a, Some(m), now), s')
  }

  // ---- Which messages are accepted ----

  /** A range of a piece; the last piece is not treated as shorter. */
  ghost predicate InPiece(c: Config, begin: nat, length: nat) {
    begin < c.t.pieceLength && begin + length <= c.t.pieceLength
  }

  ghost predicate ProperRange(c: Config, s: State, m: seq<byte>) {
    |m| == 13 && Field(m, 1) in s.pieceSet && InPiece(c, Field(m, 5), Field(m, 9))
  }

  ghost predicate ProperPiece(c: Config, s: State, m: seq<byte>) {
    && |m| >= 9 && Field(m, 1) < c.t.totalPieces
    && (Field(m, 1) !in s.pieceSet ==>
         InPiece(c, Field(m, 5), |m| - 9) && |m| - 9 <= 131072 && Field(m, 1) in s.active)
  }

  /** The messages that do not cost a peer its connection. */
  ghost predicate Proper(c: Config, s: State, p: Peer, m: seq<byte>)
    requires m != []
  {
    var id := m[0];
    || (id <= NOT_INTERESTED && |m| == 1)
    || (id == HAVE && |m| == 5 && Field(m, 1) < c.t.totalPieces)
    || (id == BITFIELD && p.canReceiveBitfield && IsBitfield(c, m))
    || (id == REQUEST && ProperRange(c, s, m))
    || (id == PIECE && ProperPiece(c, s, m))
    || (id == CANCEL && ProperRange(c, s, m) && Field(m, 9) == 16384)
    || (id == PORT && |m| == 3)
    || id == EXTENSION
  }

  lemma ProperChecked(c: Config, s: State, p: Peer, m: seq<byte>)
    requires c.Valid() && m != [] && s.pieceSet <= c.t.AllPieces()
    ensures Proper(c, s, p, m) <==> CheckMessage(c, s, p, m) == None
  {
    hide Field, IsBitfield, Bitsets.Decode;
    if m[0] == BITFIELD {
      BitfieldRead(c, m);
    }
  }

  lemma Given(c: Config, s: State, a: Address, m: seq<byte>, now: int, s': State)
    requires Gets(c, s, a, m, now, s')
    ensures c.Valid() && Inv(c, s) && a in s.peers && m != []
    ensures |s.flat| == c.t.totalSize && s.pieceSet <= c.t.AllPieces()
    ensures forall k | k in s.active :: ActiveOk(c, s.pieceSet, k, s.active[k])
  {
  }

  lemma EffectStays(c: Config, s: State, a: Address, m: seq<byte>, now: int, s': State)
    requires c.Valid() && Inv(c, s) && a in s.peers && m != []
    requires CheckMessage(c, s, s.peers[a], m) == None && !Crashes(c, s, s.peers[a], m)
    requires Effect(c, s, a, m, now, s')
    ensures a in s'.peers
  {
    hide CheckMessage, Crashes, Bitsets.Decode, Field, Inv, Forgotten, Unchoke, PeerInterest, SendRequest, ReceivePiece;
    if m[0] == UNCHOKE {
      UnchokeStays(c, s, a, now, s');
    } else if m[0] == INTERESTED || m[0] == NOT_INTERESTED {
      InterestStays(s, a, m[0] == INTERESTED, s');
    } else if m[0] == REQUEST {
      SendStays(c, s, a, m, now, s');
    } else if m[0] == PIECE {
      LongEnough(c, s, s.peers[a], m);
      if Receives(s, m) {
        ReceiveEffect(c, s, a, m, now, s');
        ReceiveStays(c, s, a, m, now, s');
      }
    }
  }

  lemma UnchokeStays(c: Config, s: State, a: Address, now: int, s': State)
    requires a in s.peers && Unchoke(c, s, a, now, s')
    ensures a in s'.peers
  {
    hide RequestBlock;
  }

  lemma InterestStays(s: State, a: Address, interested: bool, s': State)
    requires a in s.peers && PeerInterest(s, a, interested, s')
    ensures a in s'.peers
  {
    hide ChokePeers;
  }

  lemma SendStays(c: Config, s: State, a: Address, m: seq<byte>, now: int, s': State)
    requires c.Valid() && Inv(c, s) && a in s.peers && m != [] && m[0] == REQUEST
    requires CheckMessage(c, s, s.peers[a], m) == None && !Crashes(c, s, s.peers[a], m)
    requires Effect(c, s, a, m, now, s')
    ensures a in s'.peers
  {
    hide Inv, Field, PieceMessage, CacheKeeps, CheckSpan;
  }

  lemma LongEnough(c: Config, s: State, p: Peer, m: seq<byte>)
    requires m != [] && m[0] == PIECE && CheckMessage(c, s, p, m) == None
    ensures |m| >= 9
  {
    hide CheckSpan, CheckOurBlock, Field;
  }

  lemma ReceiveEffect(c: Config, s: State, a: Address, m: seq<byte>, now: int, s': State)
    requires c.Valid() && Inv(c, s) && a in s.peers && m != [] && Receives(s, m)
    requires CheckMessage(c, s, s.peers[a], m) == None && !Crashes(c, s, s.peers[a], m)
    requires Effect(c, s, a, m, now, s')
    ensures SessionTheorems.Fits(c, s, m, Field(m, 1)) && Field(m, 1) !in s.pieceSet && |s.flat| == c.t.totalSize
    ensures ActiveOk(c, s.pieceSet, Field(m, 1), s.active[Field(m, 1)])
    ensures ReceivePiece(c, s, a, Field(m, 1), Field(m, 5), m[9..], now, s')
  {
    hide CheckMessage, Crashes, ReceivePiece, Field, Inv;
    HeldPieces(c, s);
    AcceptedBlock(c, s, s.peers[a], m);
  }

  lemma ReceiveStays(c: Config, s: State, a: Address, m: seq<byte>, now: int, s': State)
    requires c.Valid() && a in s.peers && |m| >= 9 && |s.flat| == c.t.totalSize
    requires SessionTheorems.Fits(c, s, m, Field(m, 1))
    requires ReceivePiece(c, s, a, Field(m, 1), Field(m, 5), m[9..], now, s')
    ensures a in s'.peers
  {
    hide RecordBlock, RequestBlock, Field;
  }

  lemma GetsEffect(c: Config, s: State, a: Address, m: seq<byte>, now: int, s': State)
    requires Gets(c, s, a, m, now, s')
    ensures c.Valid() && Inv(c, s) && a in s.peers && m != []
    ensures |s.flat| == c.t.totalSize && s.pieceSet <= c.t.AllPieces()
    ensures forall k | k in s.active :: ActiveOk(c, s.pieceSet, k, s.active[k])
    ensures CheckMessage(c, s, s.peers[a], m) == None ==>
              !Crashes(c, s, s.peers[a], m) && Effect(c, s, a, m, now, s') && a in s'.peers
    ensures CheckMessage(c, s, s.peers[a], m).Some? ==> s' == ClosePeer(s, a) && a !in s'.peers
  {
    hide CheckMessage, Crashes, Effect, Inv, ActiveOk;
    Given(c, s, a, m, now, s');
    if CheckMessage(c, s, s.peers[a], m) == None {
      EffectStays(c, s, a, m, now, s');
    }
  }

  /** A connection is closed by a message if and only if the message is not proper. */
  lemma WhenClosed(c: Config, s: State, a: Address, m: seq<byte>, now: int, s': State)
    requires Gets(c, s, a, m, now, s')
    ensures a in s'.peers <==> Proper(c, s, s.peers[a], m)
  {
    hide Gets, Proper, CheckMessage, Crashes, Effect, ClosePeer, Inv, ActiveOk;
    GetsEffect(c, s, a, m, now, s');
    ProperChecked(c, s, s.peers[a], m);
  }

  lemma Accepted(c: Config, s: State, a: Address, m: seq<byte>, now: int, s': State)
    requires Gets(c, s, a, m, now, s') && Proper(c, s, s.peers[a], m)
    ensures c.Valid() && Inv(c, s) && |s.flat| == c.t.totalSize && s.pieceSet <= c.t.AllPieces() && a in s'.peers
    ensures forall k | k in s.active :: ActiveOk(c, s.pieceSet, k, s.active[k])
    ensures CheckMessage(c, s, s.peers[a], m) == None && !Crashes(c, s, s.peers[a], m)
    ensures Effect(c, s, a, m, now, s')
  {
    hide Gets, Proper, CheckMessage, Crashes, Effect, ClosePeer, Inv, ActiveOk;
    GetsEffect(c, s, a, m, now, s');
    ProperChecked(c, s, s.peers[a], m);
  }

  // ---- REQUEST ----

  /** A request for a part of a piece that we have: it is answered with exactly these bytes, unless the peer is choked,
      and nothing else happens. */
  lemma RequestAnswered(c: Config, s: State, a: Address, m: seq<byte>, now: int, s': State,
                        piece: nat, begin: nat, length: nat)
    requires Gets(c, s, a, m, now, s') && IsBlock(m, REQUEST, piece, begin, length) && piece in s.pieceSet
    requires begin < c.t.pieceLength && begin + length <= c.t.PieceLength(piece)
    ensures a in s'.peers && |c.t.Slice(s.flat, piece)| == c.t.PieceLength(piece)
    ensures s.peers[a].amChoking ==> s' == s
    ensures !s.peers[a].amChoking ==>
              var p, q := s.peers[a], s'.peers[a];
              && s' == s.(peers := s.peers[a := q], boxes := s'.boxes) && q == p.(sent := q.sent)
              && |q.sent| == |p.sent| + 1 && p.sent <= q.sent
              && IsPiece(q.sent[|p.sent|], piece, begin, c.t.Slice(s.flat, piece)[begin..begin + length])
  {
    hide Gets, Field, PaddedRead, CheckMessage, Crashes, CacheKeeps, Torrent.Slice, PieceMessage, Inv;
    Given(c, s, a, m, now, s');
    PieceSize(c, s, piece);
    assert Proper(c, s, s.peers[a], m) by {
      ProperRequest(c, s, s.peers[a], m, piece, begin, length);
    }
    Accepted(c, s, a, m, now, s');
    RequestEffect(c, s, a, m, now, s');
    AnswerLaw(c, s, a, piece, begin, length, s');
  }

  lemma ProperRequest(c: Config, s: State, p: Peer, m: seq<byte>, piece: nat, begin: nat, length: nat)
    requires c.Valid() && IsBlock(m, REQUEST, piece, begin, length) && piece in s.pieceSet
    requires begin < c.t.pieceLength && begin + length <= c.t.pieceLength
    ensures Proper(c, s, p, m)
  {
    hide Field;
  }

  lemma RequestEffect(c: Config, s: State, a: Address, m: seq<byte>, now: int, s': State)
    requires c.Valid() && Inv(c, s) && a in s.peers && m != [] && m[0] == REQUEST && |m| == 13
    requires Field(m, 1) < c.t.totalPieces
    requires CheckMessage(c, s, s.peers[a], m) == None && !Crashes(c, s, s.peers[a], m)
    requires Effect(c, s, a, m, now, s')
    ensures SendRequest(c, s, a, Field(m, 1), Field(m, 5), Field(m, 9), s')
  {
    hide CheckMessage, Crashes, Field, SendRequest, Inv, ReceivePiece, Unchoke, PeerInterest, HasPiece, HasPieces;
    hide Forgotten, Torrent.PieceLength, Torrent.BlockCount, Bitsets.Decode;
  }

  lemma AnswerLaw(c: Config, s: State, a: Address, piece: nat, begin: nat, length: nat, s': State)
    requires c.Valid() && |s.flat| == c.t.totalSize && a in s.peers && piece < c.t.totalPieces
    requires begin < TWO_TO_THE_32 && begin + length <= c.t.PieceLength(piece)
    requires SendRequest(c, s, a, piece, begin, length, s')
    ensures a in s'.peers && |c.t.Slice(s.flat, piece)| == c.t.PieceLength(piece)
    ensures s.peers[a].amChoking ==> s' == s
    ensures !s.peers[a].amChoking ==>
              var p, q := s.peers[a], s'.peers[a];
              && s' == s.(peers := s.peers[a := q], boxes := s'.boxes) && q == p.(sent := q.sent)
              && |q.sent| == |p.sent| + 1 && p.sent <= q.sent
              && IsPiece(q.sent[|p.sent|], piece, begin, c.t.Slice(s.flat, piece)[begin..begin + length])
  {
    hide PaddedRead, CacheKeeps, Torrent.Slice, PieceMessage, IsPiece;
    ReadWithin(c, s.flat, piece, begin, length);
    PieceWired(piece, begin, PaddedRead(s.flat, c.t.Start(piece) + begin, length));
  }

  lemma PieceSize(c: Config, s: State, piece: nat)
    requires c.Valid() && Inv(c, s) && piece in s.pieceSet
    ensures |s.flat| == c.t.totalSize && piece < c.t.totalPieces < TWO_TO_THE_32
    ensures c.t.PieceLength(piece) <= c.t.pieceLength < TWO_TO_THE_32
    ensures |c.t.Slice(s.flat, piece)| == c.t.PieceLength(piece)
  {
    c.t.PieceBounds(piece);
  }

  lemma ReadWithin(c: Config, flat: seq<byte>, piece: nat, begin: nat, length: nat)
    requires c.Valid() && |flat| == c.t.totalSize && piece < c.t.totalPieces
    requires begin + length <= c.t.PieceLength(piece)
    ensures |c.t.Slice(flat, piece)| == c.t.PieceLength(piece)
    ensures PaddedRead(flat, c.t.Start(piece) + begin, length) == c.t.Slice(flat, piece)[begin..begin + length]
  {
    c.t.PieceBounds(piece);
  }

  /** Such a request never panics, so it is always handled. */
  lemma RequestTaken(c: Config, s: State, a: Address, m: seq<byte>, now: int, piece: nat, begin: nat, length: nat)
    requires c.Valid() && Inv(c, s) && a in s.peers && IsBlock(m, REQUEST, piece, begin, length) && piece in s.pieceSet
    requires begin < c.t.pieceLength && begin + length <= c.t.PieceLength(piece)
    ensures !SessionSteps.Panics(c, s, a, m) && exists s' :: Gets(c, s, a, m, now, s')
  {
    hide Field, PaddedRead, Torrent.Slice, PieceMessage, CheckMessage, Crashes, Inv, Proper, Effect;
    PieceSize(c, s, piece);
    HeldPieces(c, s);
    var data := PaddedRead(s.flat, c.t.Start(piece) + begin, length);
    var s' := if s.peers[a].amChoking then s
              else WithPeer(s, a, Send(s.peers[a], PieceMessage(piece, begin, data))).(boxes := map[]);
    assert SendRequest(c, s, a, piece, begin, length, s');
    ProperRequest(c, s, s.peers[a], m, piece, begin, length);
    ProperChecked(c, s, s.peers[a], m);
    assert !Crashes(c, s, s.peers[a], m) by {
      NoCrash(c, s, s.peers[a], m);
    }
    SendIsEffect(c, s, a, m, now, s');
    assert Gets(c, s, a, m, now, s');
  }

  lemma NoCrash(c: Config, s: State, p: Peer, m: seq<byte>)
    requires |m| == 13 && m[0] == REQUEST && Field(m, 5) + Field(m, 9) <= c.t.PieceLength(Field(m, 1))
    ensures !Crashes(c, s, p, m)
  {
    hide Field, CheckOurBlock, Torrent.PieceLength;
  }

  lemma SendIsEffect(c: Config, s: State, a: Address, m: seq<byte>, now: int, s': State)
    requires c.Valid() && Inv(c, s) && a in s.peers && |m| == 13 && m[0] == REQUEST && Field(m, 1) < c.t.totalPieces
    requires CheckMessage(c, s, s.peers[a], m) == None && !Crashes(c, s, s.peers[a], m)
    requires |s.flat| == c.t.totalSize && SendRequest(c, s, a, Field(m, 1), Field(m, 5), Field(m, 9), s')
    ensures MessageStep(c, s, a, m, now, s')
  {
    hide CheckMessage, Crashes, Field, SendRequest, Inv, ReceivePiece, Unchoke, PeerInterest, HasPiece, HasPieces;
    hide Forgotten, Torrent.PieceLength, Torrent.BlockCount, Bitsets.Decode;
  }

  // ---- HAVE and BITFIELD ----

  lemma HasPieceLaw(s: State, p: Peer, n: nat)
    ensures var wanted := n !in s.pieceSet && !p.amInterested;
            HasPiece(s, p, n) == p.(have := p.have + {n}, amInterested := p.amInterested || wanted,
                                    sent := p.sent + if wanted then [[INTERESTED]] else [])
  {
    assert p.sent + [] == p.sent;
  }

  lemma HasPiecesLaw(s: State, p: Peer, have: set<nat>)
    ensures var wanted := exists i :: i in have && i !in s.pieceSet;
            HasPieces(s, p, have) == p.(have := have, amInterested := wanted,
                                        sent := p.sent + if wanted == p.amInterested then []
                                                         else [[if wanted then INTERESTED else NOT_INTERESTED]])
  {
    assert p.sent + [] == p.sent;
  }

  /** The peer has one piece more, and is told of our interest if that is new. */
  lemma HaveHeard(c: Config, s: State, a: Address, m: seq<byte>, now: int, s': State, n: nat)
    requires Gets(c, s, a, m, now, s') && IsHave(m, n) && n < c.t.totalPieces
    ensures var p := s.peers[a];
            var wanted := n !in s.pieceSet && !p.amInterested;
            s' == s.(peers := s.peers[a := p.(
              have := p.have + {n},
              canReceiveBitfield := false,
              amInterested := p.amInterested || wanted,
              sent := p.sent + if wanted then [[INTERESTED]] else [])])
  {
    hide Gets, Field, CheckMessage, Crashes, Inv, HasPiece;
    Given(c, s, a, m, now, s');
    Accepted(c, s, a, m, now, s');
    HasPieceLaw(s, s.peers[a], n);
    Replaced(s.peers, a, HasPiece(s, s.peers[a], n), s'.peers[a]);
  }

  lemma Replaced(peers: map<Address, Peer>, a: Address, p: Peer, q: Peer)
    ensures peers[a := p][a := q] == peers[a := q]
  {
  }

  /** The peer has exactly the pieces whose bits are set, and is told whether it has one that we lack, if that is
      new. */
  lemma BitfieldHeard(c: Config, s: State, a: Address, m: seq<byte>, now: int, s': State)
    requires Gets(c, s, a, m, now, s') && IsBitfield(c, m) && s.peers[a].canReceiveBitfield
    ensures var p := s.peers[a];
            var wanted := exists i :: i in Bits(c, m) && i !in s.pieceSet;
            s' == s.(peers := s.peers[a := p.(
              have := Bits(c, m),
              canReceiveBitfield := false,
              amInterested := wanted,
              sent := p.sent + if wanted == p.amInterested then []
                               else [[if wanted then INTERESTED else NOT_INTERESTED]])])
  {
    hide Gets, Field, CheckMessage, Crashes, HasBit, Bitsets.Decode, Inv, HasPieces;
    Given(c, s, a, m, now, s');
    BitfieldRead(c, m);
    Accepted(c, s, a, m, now, s');
    HasPiecesLaw(s, s.peers[a], Bits(c, m));
    Replaced(s.peers, a, HasPieces(s, s.peers[a], Bits(c, m)), s'.peers[a]);
  }

  // ---- CHOKE, and the end of a connection ----

  /** Each of these requests is taken off the count of its block, unless the block is here or nobody was asked. */
  ghost predicate TakenOff(before: map<nat, Active>, after: map<nat, Active>, keys: set<nat>) {
    && after.Keys == before.Keys
    && forall k | k in before :: OffCounts(k, before[k], after[k], keys)
  }

  ghost predicate OffCounts(k: nat, v: Active, w: Active, keys: set<nat>) {
    && w.buffer == v.buffer && |w.counts| == |v.counts|
    && forall b: nat | b < |v.counts| ::
         w.counts[b] == v.counts[b] - if v.counts[b] > 0 && Pack(k, b * STANDARD_BLOCK_LENGTH) in keys then 1 else 0
  }

  lemma ForgottenOff(s: State, keys: set<nat>)
    ensures TakenOff(s.active, Forgotten(s, keys).active, keys)
    ensures Forgotten(s, keys) == s.(active := Forgotten(s, keys).active)
  {
    hide Pack;
  }

  lemma ChokeHeard(c: Config, s: State, a: Address, now: int, s': State)
    requires Gets(c, s, a, [CHOKE], now, s')
    ensures TakenOff(s.active, s'.active, s.peers[a].ourRequests.Keys)
    ensures s' == s.(active := s'.active, peers := s.peers[
                     a := s.peers[a].(peerChoking := true, ourRequests := map[], canReceiveBitfield := false)])
  {
    hide Gets, CheckMessage, Crashes, Forgotten, Inv;
    Given(c, s, a, [CHOKE], now, s');
    Accepted(c, s, a, [CHOKE], now, s');
    ForgottenOff(s, s.peers[a].ourRequests.Keys);
    SessionSteps.ForgottenFrame(s, s.peers[a].ourRequests.Keys);
    Replaced(s.peers, a, s.peers[a].(peerChoking := true, ourRequests := map[]), s'.peers[a]);
  }

  /** A connection that ends takes its requests with it and touches nobody else. */
  lemma ConnectionEnds(c: Config, s: State, e: Event, s': State)
    requires c.Valid() && Inv(c, s) && Step(c, s, e, s')
    requires e.Expire? || (e.Message? && e.message == None)
          || (e.Message? && e.address in s.peers && e.message.Some? && e.message.value != []
              && !Proper(c, s, s.peers[e.address], e.message.value))
    ensures e.address in s.peers && TakenOff(s.active, s'.active, s.peers[e.address].ourRequests.Keys)
    ensures s' == s.(active := s'.active, peers := s.peers - {e.address})
  {
    hide Inv, Effect, Proper, CheckMessage, Crashes, Forgotten;
    var a := e.address;
    SessionSteps.ForgottenFrame(s, s.peers[a].ourRequests.Keys);
    ForgottenOff(s, s.peers[a].ourRequests.Keys);
    if e.Message? && e.message.Some? {
      assert s.pieceSet <= c.t.AllPieces() by {
        HeldPieces(c, s);
      }
      ProperChecked(c, s, s.peers[a], e.message.value);
    }
  }

  lemma HeldPieces(c: Config, s: State)
    requires c.Valid() && Inv(c, s)
    ensures s.pieceSet <= c.t.AllPieces() && |s.flat| == c.t.totalSize
  {
  }

  // ---- Messages without an answer ----

  /** CANCEL, PORT, and a block of a piece that we have. */
  lemma Unanswered(c: Config, s: State, a: Address, m: seq<byte>, now: int, s': State)
    requires Gets(c, s, a, m, now, s') && Proper(c, s, s.peers[a], m)
    requires m[0] == CANCEL || m[0] == PORT || (m[0] == PIECE && |m| >= 9 && Field(m, 1) in s.pieceSet)
    ensures s' == s.(peers := s.peers[a := s.peers[a].(canReceiveBitfield := false)])
  {
    hide Gets, Proper, CheckMessage, Crashes, Inv;
    Given(c, s, a, m, now, s');
    Accepted(c, s, a, m, now, s');
    OtherEffect(c, s, a, m, now, s');
  }

  lemma OtherEffect(c: Config, s: State, a: Address, m: seq<byte>, now: int, s': State)
    requires c.Valid() && Inv(c, s) && a in s.peers && m != []
    requires m[0] == CANCEL || m[0] == PORT || (m[0] == PIECE && |m| >= 9 && Field(m, 1) in s.pieceSet)
    requires CheckMessage(c, s, s.peers[a], m) == None && !Crashes(c, s, s.peers[a], m)
    requires Effect(c, s, a, m, now, s')
    ensures s' == Late(s, a)
  {
    hide CheckMessage, Crashes, Field, SendRequest, Inv, ReceivePiece, Unchoke, PeerInterest, HasPiece, HasPieces;
    hide Forgotten, Torrent.PieceLength, Torrent.BlockCount, Bitsets.Decode, Late;
  }

  /** An extension message is answered by the bitfield of the pieces that we have. */
  lemma ExtensionHeard(c: Config, s: State, a: Address, m: seq<byte>, now: int, s': State)
    requires Gets(c, s, a, m, now, s') && m[0] == EXTENSION
    ensures a in s'.peers
    ensures var p, q := s.peers[a], s'.peers[a];
            && s' == s.(peers := s.peers[a := q]) && q == p.(sent := q.sent)
            && |q.sent| == |p.sent| + 1 && p.sent <= q.sent
            && IsBitfield(c, q.sent[|p.sent|]) && Bits(c, q.sent[|p.sent|]) == s.pieceSet
  {
    hide Gets, Field, CheckMessage, Crashes, BitfieldMessage, HasBit;
    Accepted(c, s, a, m, now, s');
    BitfieldWired(c, s.pieceSet);
  }

  // ---- INTERESTED and the choke tick ----

  /** Only choking changes, and each peer is told exactly when it does. */
  ghost predicate OnlyChoked(p: Peer, q: Peer) {
    && q == p.(amChoking := q.amChoking, sent := q.sent)
    && (q.amChoking == p.amChoking ==> q.sent == p.sent)
    && (q.amChoking != p.amChoking ==>
         p.peerInterested && q.sent == p.sent + [[if q.amChoking then CHOKE else UNCHOKE]])
  }

  ghost predicate OnlyChoking(s: State, s': State) {
    && s' == s.(peers := s'.peers) && s'.peers.Keys == s.peers.Keys
    && forall b | b in s.peers :: OnlyChoked(s.peers[b], s'.peers[b])
  }

  lemma ChokedOnly(s: State, s': State)
    requires ChokePeers(s, s')
    ensures OnlyChoking(s, s')
  {
    var chosen :| chosen <= InterestedPeers(s.peers)
                  && |chosen| == Min(UPLOAD_SLOTS, |InterestedPeers(s.peers)|)
                  && s' == s.(peers := Rechoked(s.peers, chosen));
  }

  lemma InterestEffect(c: Config, s: State, a: Address, m: seq<byte>, now: int, s': State)
    requires c.Valid() && Inv(c, s) && a in s.peers && (m == [INTERESTED] || m == [NOT_INTERESTED])
    requires CheckMessage(c, s, s.peers[a], m) == None && !Crashes(c, s, s.peers[a], m)
    requires Effect(c, s, a, m, now, s')
    ensures PeerInterest(s, a, m == [INTERESTED], s')
  {
    hide CheckMessage, Crashes, PeerInterest;
  }

  lemma InterestHeard(c: Config, s: State, a: Address, m: seq<byte>, now: int, s': State)
    requires Gets(c, s, a, m, now, s') && (m == [INTERESTED] || m == [NOT_INTERESTED])
    ensures var p := s.peers[a].(peerInterested := m == [INTERESTED], canReceiveBitfield := false);
            OnlyChoking(s.(peers := s.peers[a := p]), s')
  {
    hide Gets, CheckMessage, Crashes, ChokePeers, Inv;
    Given(c, s, a, m, now, s');
    Accepted(c, s, a, m, now, s');
    InterestEffect(c, s, a, m, now, s');
    ChokingLast(s, a, m == [INTERESTED], s');
  }

  lemma ChokingLast(s: State, a: Address, interested: bool, s': State)
    requires a in s.peers && PeerInterest(s, a, interested, s')
    ensures var p := s.peers[a].(peerInterested := interested, canReceiveBitfield := false);
            OnlyChoking(s.(peers := s.peers[a := p]), s')
  {
    hide ChokePeers, OnlyChoking;
    var s0 := WithPeer(s, a, s.peers[a].(peerInterested := interested));
    var s1 :| ChokePeers(s0, s1) && a in s1.peers && s' == Late(s1, a);
    ChokedOnly(s0, s1);
    LateChoking(s0, s1, a);
    Replaced(s.peers, a, s0.peers[a], s.peers[a].(peerInterested := interested, canReceiveBitfield := false));
  }

  lemma LateChoking(s: State, s': State, a: Address)
    requires OnlyChoking(s, s') && a in s.peers
    ensures a in s'.peers && OnlyChoking(Late(s, a), Late(s', a))
  {
    hide OnlyChoked;
    forall b | b in s.peers
      ensures OnlyChoked(Late(s, a).peers[b], Late(s', a).peers[b])
    {
      LateChoked(s.peers[b], s'.peers[b]);
    }
    LateFields(s, s', a);
  }

  lemma LateChoked(p: Peer, q: Peer)
    requires OnlyChoked(p, q)
    ensures OnlyChoked(p.(canReceiveBitfield := false), q.(canReceiveBitfield := false))
  {
  }

  lemma LateFields(s: State, s': State, a: Address)
    requires s' == s.(peers := s'.peers) && s'.peers.Keys == s.peers.Keys && a in s.peers
    ensures Late(s', a) == Late(s, a).(peers := Late(s', a).peers) && Late(s', a).peers.Keys == Late(s, a).peers.Keys
  {
  }

  // ---- Requesting ----

  /** The peer is asked for block b of the piece: on the wire, and in what we remember. */
  ghost predicate AsksPeer(c: Config, p: Peer, q: Peer, k: nat, b: nat, now: int) {
    && q == p.(ourRequests := p.ourRequests[Pack(k, b * STANDARD_BLOCK_LENGTH) := now], sent := q.sent)
    && SendsBlock(c, p.sent, q.sent, REQUEST, k, b * STANDARD_BLOCK_LENGTH)
  }

  ghost predicate AsksFor(c: Config, s: State, a: Address, s': State, k: nat, b: nat, now: int) {
    && a in s.peers && a in s'.peers && k in s.active && b < |s.active[k].counts|
    && s' == s.(peers := s.peers[a := s'.peers[a]],
                active := s.active[k := s.active[k].(counts := s.active[k].counts[b := s.active[k].counts[b] + 1])])
    && AsksPeer(c, s.peers[a], s'.peers[a], k, b, now)
  }

  /** A piece of which nothing is here and nobody was asked for anything. */
  ghost predicate Blank(c: Config, k: nat, v: Active) {
    && |v.counts| == c.t.BlockCount(k) && (forall b | 0 <= b < |v.counts| :: v.counts[b] == 0)
    && |v.buffer| == c.t.PieceLength(k)
  }

  ghost predicate Starts(c: Config, s: State, a: Address, s': State, k: nat, now: int) {
    && k in s'.active && k < c.t.totalPieces
    && exists v :: Blank(c, k, v) && AsksFor(c, s.(active := s.active[k := v]), a, s', k, 0, now)
  }

  /** One more request, as the state allows: a block nobody was asked for; nothing if too many pieces are active; the
      first block of a new piece; a missing block that fewest were asked for; or the end of our interest. */
  ghost predicate RequestsNext(c: Config, s: State, a: Address, now: int, s': State) {
    && a in s.peers && a in s'.peers
    && var p := s.peers[a];
       if exists k :: k in s.active && k in p.have && 0 in s.active[k].counts then
         exists k, b: nat :: k in p.have && AsksFor(c, s, a, s', k, b, now) && s.active[k].counts[b] == 0
       else if |s.active| >= c.maxActive then s' == s
       else if exists k :: k in p.have && k !in s.pieceSet && k !in s.active then
         exists k: nat :: k in p.have && k !in s.pieceSet && k !in s.active && Starts(c, s, a, s', k, now)
       else if exists k :: k in s.active && k in p.have then
         exists k, b: nat :: k in p.have && AsksFor(c, s, a, s', k, b, now) && FewestAsked(s.active[k].counts, b)
       else
         s' == s.(peers := s.peers[a := p.(amInterested := false,
                                           sent := p.sent + if p.amInterested then [[NOT_INTERESTED]] else [])])
  }

  /** At most one message, which is a request or the end of our interest. */
  ghost predicate OneOrNone(before: seq<seq<byte>>, after: seq<seq<byte>>) {
    || after == before
    || (&& |after| == |before| + 1 && before <= after && after[|before|] != []
        && (after[|before|][0] == REQUEST || after[|before|][0] == NOT_INTERESTED))
  }

  /** Of the peers, a request concerns only the one that is asked. */
  ghost predicate Touches(s: State, a: Address, s': State) {
    && a in s.peers && a in s'.peers && s'.peers == s.peers[a := s'.peers[a]] && s'.pieceSet == s.pieceSet
    && var p, q := s.peers[a], s'.peers[a];
       && q == p.(ourRequests := q.ourRequests, sent := q.sent, amInterested := q.amInterested)
       && OneOrNone(p.sent, q.sent)
  }

  lemma AsksTouches(c: Config, s: State, a: Address, s': State, k: nat, b: nat, now: int)
    requires AsksFor(c, s, a, s', k, b, now)
    ensures Touches(s, a, s')
  {
    hide Pack, BlockSize;
  }

  lemma StartsTouches(c: Config, s: State, a: Address, s': State, k: nat, now: int)
    requires Starts(c, s, a, s', k, now)
    ensures Touches(s, a, s')
  {
    hide AsksFor, Blank, OneOrNone;
    var v :| Blank(c, k, v) && AsksFor(c, s.(active := s.active[k := v]), a, s', k, 0, now);
    AsksTouches(c, s.(active := s.active[k := v]), a, s', k, 0, now);
  }

  lemma NextTouches(c: Config, s: State, a: Address, now: int, s': State)
    requires RequestsNext(c, s, a, now, s')
    ensures Touches(s, a, s')
  {
    hide AsksFor, Starts, FewestAsked;
    var p := s.peers[a];
    if exists k :: k in s.active && k in p.have && 0 in s.active[k].counts {
      var k, b: nat :| k in p.have && AsksFor(c, s, a, s', k, b, now);
      AsksTouches(c, s, a, s', k, b, now);
    } else if |s.active| >= c.maxActive {
      assert s.peers[a := p] == s.peers;
    } else if exists k :: k in p.have && k !in s.pieceSet && k !in s.active {
      var k: nat :| k in p.have && Starts(c, s, a, s', k, now);
      StartsTouches(c, s, a, s', k, now);
    } else if exists k :: k in s.active && k in p.have {
      var k, b: nat :| k in p.have && AsksFor(c, s, a, s', k, b, now);
      AsksTouches(c, s, a, s', k, b, now);
    } else {
      assert p.sent + [] == p.sent;
    }
  }

  ghost predicate FewestAsked(counts: seq<int>, b: nat) {
    b < |counts| && counts[b] >= 0 && forall j | 0 <= j < |counts| && counts[j] >= 0 :: counts[b] <= counts[j]
  }

  lemma AskedWired(c: Config, s: State, a: Address, k: nat, b: nat, now: int)
    requires c.Valid() && a in s.peers && k in s.active && b < |s.active[k].counts|
    requires k < c.t.totalPieces && b < c.t.BlockCount(k)
    ensures AsksFor(c, s, a, Requested(c, s, a, k, b, now), k, b, now)
  {
    hide RequestMessage, Pack, BlockSize, IsBlock, Torrent.BlockCount;
    BlockWired(c, REQUEST, k, b);
  }

  lemma ActiveRequestLaw(c: Config, s: State, a: Address, now: int, endgame: bool, s': State)
    requires c.Valid() && Inv(c, s) && a in s.peers && RequestsActive(c, s, a, now, endgame, s')
    ensures exists k, b: nat :: k in s.peers[a].have && AsksFor(c, s, a, s', k, b, now)
              && if endgame then FewestAsked(s.active[k].counts, b) else s.active[k].counts[b] == 0
  {
    hide AsksFor;
    var k, b: nat :|
      && k in s.active && k in s.peers[a].have
      && (if endgame then EndgameBlock(s.active[k].counts, b) else FreeBlock(s.active[k].counts, b))
      && s' == Requested(c, s, a, k, b, now);
    assert ActiveOk(c, s.pieceSet, k, s.active[k]);
    AskedWired(c, s, a, k, b, now);
  }

  lemma StartLaw(c: Config, s: State, a: Address, now: int, s': State)
    requires c.Valid() && a in s.peers && StartsPiece(c, s, a, now, s')
    ensures exists k: nat ::
              k in s.peers[a].have && k !in s.pieceSet && k !in s.active && Starts(c, s, a, s', k, now)
  {
    hide AsksFor;
    var k: nat :|
      && Unclaimed(s, s.peers[a], k) && k < c.t.totalPieces
      && c.t.BlockCount(k) > 0
      && s' == Requested(c, Started(c, s, k), a, k, 0, now);
    AskedWired(c, Started(c, s, k), a, k, 0, now);
    assert Blank(c, k, Fresh(c, k));
    assert Starts(c, s, a, s', k, now);
  }

  lemma RequestLaw(c: Config, s: State, a: Address, now: int, s': State)
    requires c.Valid() && Inv(c, s) && a in s.peers && RequestBlock(c, s, a, now, s')
    ensures RequestsNext(c, s, a, now, s')
  {
    hide RequestsActive, StartsPiece, AsksFor, Starts, Inv, FewestAsked, NoFreeBlock, Unclaimed, SetInterested;
    var p := s.peers[a];
    SameConditions(s, p);
    if RequestsActive(c, s, a, now, false, s') {
      ActiveRequestLaw(c, s, a, now, false, s');
      FreeLaw(c, s, a, now, s');
    } else if |s.active| >= c.maxActive {
    } else if exists k :: Unclaimed(s, p, k) {
      StartLaw(c, s, a, now, s');
      StartsAt(c, s, a, now, s');
    } else if exists k :: k in s.active && k in p.have && !Complete(s.active[k].counts) {
      ActiveRequestLaw(c, s, a, now, true, s');
      AsksAt(c, s, a, now, s');
    } else {
      NoneUseful(c, s, p);
      NoInterest(p);
    }
  }

  lemma NoInterest(p: Peer)
    ensures SetInterested(p, false)
         == p.(amInterested := false, sent := p.sent + if p.amInterested then [[NOT_INTERESTED]] else [])
  {
    assert p.sent + [] == p.sent;
  }

  lemma SameConditions(s: State, p: Peer)
    ensures NoFreeBlock(s, p) <==> !exists k :: k in s.active && k in p.have && 0 in s.active[k].counts
    ensures (exists k :: Unclaimed(s, p, k)) <==> exists k :: k in p.have && k !in s.pieceSet && k !in s.active
  {
    if k :| k in p.have && k !in s.pieceSet && k !in s.active {
      assert Unclaimed(s, p, k);
    }
  }

  lemma FreeLaw(c: Config, s: State, a: Address, now: int, s': State)
    requires a in s.peers
    requires exists k, b: nat :: k in s.peers[a].have && AsksFor(c, s, a, s', k, b, now) && s.active[k].counts[b] == 0
    ensures a in s'.peers && exists k :: k in s.active && k in s.peers[a].have && 0 in s.active[k].counts
  {
    hide AsksPeer;
    var k, b: nat :| k in s.peers[a].have && AsksFor(c, s, a, s', k, b, now) && s.active[k].counts[b] == 0;
    assert s.active[k].counts[b] in s.active[k].counts;
  }

  lemma StartsAt(c: Config, s: State, a: Address, now: int, s': State)
    requires a in s.peers && exists k: nat :: k in s.peers[a].have && k !in s.pieceSet && k !in s.active
                                           && Starts(c, s, a, s', k, now)
    ensures a in s'.peers
  {
    hide AsksPeer;
  }

  lemma AsksAt(c: Config, s: State, a: Address, now: int, s': State)
    requires a in s.peers && exists k, b: nat :: k in s.peers[a].have && AsksFor(c, s, a, s', k, b, now)
                                              && FewestAsked(s.active[k].counts, b)
    ensures a in s'.peers
  {
    hide AsksPeer, FewestAsked;
  }

  /** An active piece is never complete. */
  lemma NoneUseful(c: Config, s: State, p: Peer)
    requires c.Valid() && Inv(c, s)
    ensures forall k | k in s.active && k in p.have :: !Complete(s.active[k].counts)
  {
    forall k | k in s.active
      ensures !Complete(s.active[k].counts)
    {
      assert ActiveOk(c, s.pieceSet, k, s.active[k]);
    }
  }

  /** The peer chokes us no more, and is asked twice. */
  lemma UnchokeHeard(c: Config, s: State, a: Address, now: int, s': State)
    requires Gets(c, s, a, [UNCHOKE], now, s')
    ensures exists s1, s2 ::
              && RequestsNext(c, s.(peers := s.peers[a := s.peers[a].(peerChoking := false)]), a, now, s1)
              && RequestsNext(c, s1, a, now, s2) && a in s2.peers
              && s' == s2.(peers := s2.peers[a := s2.peers[a].(canReceiveBitfield := false)])
  {
    hide Gets, CheckMessage, Crashes, RequestBlock, RequestsNext, Inv;
    Given(c, s, a, [UNCHOKE], now, s');
    Accepted(c, s, a, [UNCHOKE], now, s');
    var s0 := WithPeer(s, a, s.peers[a].(peerChoking := false));
    var s1, s2 :| RequestBlock(c, s0, a, now, s1) && a in s1.peers
                  && RequestBlock(c, s1, a, now, s2) && a in s2.peers && s' == Late(s2, a);
    SessionSteps.UnchokedSound(c, s, a);
    SessionSteps.SoundInv(c, s0);
    RequestBlockKeeps(c, s0, a, now, s1);
    RequestLaw(c, s0, a, now, s1);
    RequestLaw(c, s1, a, now, s2);
  }

  // ---- Connections, keep-alives and ticks ----

  /** A connection of our own, from a peer that we know, or one too many is turned away; any other peer is new, has
      named nothing, is choked, and is sent the greeting. */
  lemma Connects(c: Config, s: State, e: Event, s': State)
    requires c.Valid() && Inv(c, s) && Step(c, s, e, s') && e.Connect?
    ensures e.id == c.ourId || (exists b :: b in s.peers && s.peers[b].id == e.id) || |s.peers| >= 60 ==> s' == s
    ensures !(e.id == c.ourId || (exists b :: b in s.peers && s.peers[b].id == e.id) || |s.peers| >= 60) ==>
              s' == s.(peers := s.peers[e.address := Peer(e.id, {}, true, false, true, false, map[], true, false,
                                                          [e.greeting])])
  {
    assert [] + [e.greeting] == [e.greeting];
  }

  /** The requests that are older than thirty seconds are taken off the counts, and an empty message is sent. */
  lemma KeptAlive(c: Config, s: State, a: Address, now: int, s': State)
    requires c.Valid() && Inv(c, s) && Step(c, s, KeepAlive(a, now), s')
    ensures a in s.peers && s' == s.(active := s'.active, peers := s.peers[
                                     a := s.peers[a].(sent := s.peers[a].sent + [[]])])
    ensures TakenOff(s.active, s'.active,
                     set key | key in s.peers[a].ourRequests && now - s.peers[a].ourRequests[key] > 30_000_000_000)
  {
    hide Inv, Forgotten, TakenOff;
    ForgottenOff(s, TimedOut(s.peers[a], now));
    SessionSteps.ForgottenFrame(s, TimedOut(s.peers[a], now));
  }

  lemma Ticks(c: Config, s: State, s': State)
    requires c.Valid() && Inv(c, s) && Step(c, s, ChokeTick, s')
    ensures OnlyChoking(s, s')
  {
    hide Inv, OnlyChoking;
    ChokedOnly(s, s');
  }
}
