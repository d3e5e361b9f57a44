/** What peers are told: blocks that we send are stored bytes of pieces we have, we announce only pieces we have and all
    that the peer lacks, we ask for nothing outside a piece, and what we remember to have asked for is on the wire. */
module SessionMessages {
  import opened Arith
  import opened Bytes
  import opened Geometry
  import opened SessionState
  import opened SessionInvariant
  import opened SessionRun
  import opened SessionWire
  import Bitsets
  import SessionBlocks
  import SessionLimits
  import SessionSteps
  import SessionTheorems

  // ---- Messages that are true ----

  /** The bytes of a piece we have, followed by zeros past the end of a short last piece. */
  ghost predicate CarriesPiece(c: Config, pieceSet: set<nat>, flat: seq<byte>, m: seq<byte>)
    requires c.Valid() && |flat| == c.t.totalSize && pieceSet <= c.t.AllPieces()
  {
    && |m| >= 9 && Field(m, 1) in pieceSet && Field(m, 5) + (|m| - 9) <= c.t.pieceLength
    && m[9..] == PaddedRead(c.t.Slice(flat, Field(m, 1)), Field(m, 5), |m| - 9)
  }

  /** A block that starts in its piece; it also ends there if requests tile the pieces. */
  ghost predicate AsksWithin(c: Config, m: seq<byte>) {
    && |m| == 13 && Field(m, 1) < c.t.totalPieces && Field(m, 5) < c.t.PieceLength(Field(m, 1))
    && (SessionBlocks.Aligned(c) ==> Field(m, 5) + Field(m, 9) <= c.t.PieceLength(Field(m, 1)))
  }

  ghost predicate TellsTruth(c: Config, pieceSet: set<nat>, flat: seq<byte>, m: seq<byte>)
    requires c.Valid() && |flat| == c.t.totalSize && pieceSet <= c.t.AllPieces()
  {
    m != [] ==>
      && (m[0] == PIECE ==> CarriesPiece(c, pieceSet, flat, m))
      && (m[0] == HAVE ==> |m| == 5 && Field(m, 1) in pieceSet)
      && (m[0] == BITFIELD ==> IsBitfield(c, m) && Bits(c, m) <= pieceSet)
      && (m[0] == REQUEST || m[0] == CANCEL ==> AsksWithin(c, m))
  }

  // ---- What a peer was told ----

  ghost predicate Cancels(m: seq<byte>, piece: nat, begin: nat) {
    |m| == 13 && m[0] == CANCEL && Field(m, 1) == piece && Field(m, 5) == begin
  }

  ghost predicate AskedFrom(c: Config, sent: seq<seq<byte>>, i: nat, piece: nat, begin: nat) {
    && i < |sent| && IsBlock(sent[i], REQUEST, piece, begin, BlockSize(c, piece, begin))
    && forall j | i < j < |sent| :: !Cancels(sent[j], piece, begin)
  }

  /** The block was asked for, in its full length, and the request was not cancelled since. */
  ghost predicate StillAsked(c: Config, sent: seq<seq<byte>>, piece: nat, begin: nat) {
    exists i: nat :: AskedFrom(c, sent, i, piece, begin)
  }

  ghost predicate AskedOnWire(c: Config, p: Peer) {
    forall key | key in p.ourRequests :: StillAsked(c, p.sent, PieceOf(key), BeginOf(key))
  }

  /** The message tells that we have the piece. */
  ghost predicate Names(m: seq<byte>, piece: nat) {
    IsHave(m, piece) || (m != [] && m[0] == BITFIELD && HasBit(m, piece))
  }

  ghost predicate GotBitfield(sent: seq<seq<byte>>) {
    exists m :: m in sent && m != [] && m[0] == BITFIELD
  }

  ghost predicate WasTold(sent: seq<seq<byte>>, piece: nat) {
    exists m :: m in sent && Names(m, piece)
  }

  /** A peer that got our bitfield was told of every piece that we have and it lacks. */
  ghost predicate KnowsOurPieces(pieceSet: set<nat>, p: Peer) {
    GotBitfield(p.sent) ==> forall k | k in pieceSet && k !in p.have :: WasTold(p.sent, k)
  }

  ghost predicate PeerTrue(c: Config, pieceSet: set<nat>, flat: seq<byte>, p: Peer)
    requires c.Valid() && |flat| == c.t.totalSize && pieceSet <= c.t.AllPieces()
  {
    && (forall m | m in p.sent :: TellsTruth(c, pieceSet, flat, m))
    && AskedOnWire(c, p) && KnowsOurPieces(pieceSet, p)
    && (p.canReceiveBitfield ==> p.have == {})
  }

  ghost predicate AllTrue(c: Config, pieceSet: set<nat>, flat: seq<byte>, peers: map<Address, Peer>)
    requires c.Valid() && |flat| == c.t.totalSize && pieceSet <= c.t.AllPieces()
  {
    forall a | a in peers :: PeerTrue(c, pieceSet, flat, peers[a])
  }

  ghost predicate SentTrue(c: Config, s: State) {
    && c.Valid() && |s.flat| == c.t.totalSize && s.pieceSet <= c.t.AllPieces()
    && AllTrue(c, s.pieceSet, s.flat, s.peers)
  }

  // ---- Single messages ----

  /** What was true stays true when pieces are added. */
  lemma StaysTrue(c: Config, pieceSet: set<nat>, flat: seq<byte>, pieceSet': set<nat>, flat': seq<byte>, m: seq<byte>)
    requires c.Valid() && |flat| == |flat'| == c.t.totalSize && pieceSet <= pieceSet' <= c.t.AllPieces()
    requires forall i | i in pieceSet :: c.t.Slice(flat', i) == c.t.Slice(flat, i)
    requires TellsTruth(c, pieceSet, flat, m)
    ensures TellsTruth(c, pieceSet', flat', m)
  {
    hide Field, PaddedRead, Torrent.Slice, AsksWithin, IsBitfield, HasBit;
  }

  lemma RequestTrue(c: Config, pieceSet: set<nat>, flat: seq<byte>, opcode: byte, piece: nat, block: nat)
    requires c.Valid() && |flat| == c.t.totalSize && pieceSet <= c.t.AllPieces()
    requires (opcode == REQUEST || opcode == CANCEL) && piece < c.t.totalPieces && block < c.t.BlockCount(piece)
    ensures TellsTruth(c, pieceSet, flat, RequestMessage(c, opcode, piece, block))
  {
    hide RequestMessage, RequestLength, Torrent.BlockCount, BlockSize, Field;
    BlockWired(c, opcode, piece, block);
    BlockFits(c, piece, block);
    SessionBlocks.RequestWithin(c, piece, block);
    assert AsksWithin(c, RequestMessage(c, opcode, piece, block));
  }

  lemma HaveTrue(c: Config, pieceSet: set<nat>, flat: seq<byte>, piece: nat)
    requires c.Valid() && |flat| == c.t.totalSize && pieceSet <= c.t.AllPieces() && piece in pieceSet
    ensures TellsTruth(c, pieceSet, flat, HaveMessage(piece))
  {
    hide HaveMessage, Field;
    HaveWired(piece);
  }

  lemma BitfieldTrue(c: Config, pieceSet: set<nat>, flat: seq<byte>)
    requires c.Valid() && |flat| == c.t.totalSize && pieceSet <= c.t.AllPieces()
    ensures TellsTruth(c, pieceSet, flat, BitfieldMessage(c, pieceSet))
  {
    hide BitfieldMessage, HasBit;
    BitfieldWired(c, pieceSet);
  }

  /** A padded read within the piece length is a padded read of the piece. */
  lemma ReadOfPiece(c: Config, flat: seq<byte>, piece: nat, begin: nat, length: nat)
    requires c.Valid() && |flat| == c.t.totalSize && piece < c.t.totalPieces && begin + length <= c.t.pieceLength
    ensures PaddedRead(flat, c.t.Start(piece) + begin, length) == PaddedRead(c.t.Slice(flat, piece), begin, length)
  {
    c.t.PieceBounds(piece);
  }

  lemma PieceTrue(c: Config, pieceSet: set<nat>, flat: seq<byte>, piece: nat, begin: nat, length: nat)
    requires c.Valid() && |flat| == c.t.totalSize && pieceSet <= c.t.AllPieces() && piece in pieceSet
    requires begin + length <= c.t.pieceLength
    ensures TellsTruth(c, pieceSet, flat,
                       PieceMessage(piece, begin, PaddedRead(flat, c.t.Start(piece) + begin, length)))
  {
    hide PieceMessage, Field, PaddedRead;
    var data := PaddedRead(flat, c.t.Start(piece) + begin, length);
    PieceWired(piece, begin, data);
    ReadOfPiece(c, flat, piece, begin, length);
  }

  // ---- One peer ----

  lemma SentOn(c: Config, sent: seq<seq<byte>>, m: seq<byte>, piece: nat, begin: nat)
    requires StillAsked(c, sent, piece, begin) && !Cancels(m, piece, begin)
    ensures StillAsked(c, sent + [m], piece, begin)
  {
    hide IsBlock, Cancels, BlockSize;
    var i: nat :| AskedFrom(c, sent, i, piece, begin);
    assert AskedFrom(c, sent + [m], i, piece, begin);
  }

  lemma AskedNow(c: Config, sent: seq<seq<byte>>, m: seq<byte>, piece: nat, begin: nat)
    requires IsBlock(m, REQUEST, piece, begin, BlockSize(c, piece, begin))
    ensures StillAsked(c, sent + [m], piece, begin)
  {
    hide IsBlock, Cancels, BlockSize;
    assert AskedFrom(c, sent + [m], |sent|, piece, begin);
  }

  lemma ToldOn(sent: seq<seq<byte>>, m: seq<byte>, piece: nat)
    requires WasTold(sent, piece)
    ensures WasTold(sent + [m], piece)
  {
    hide Names;
    var n :| n in sent && Names(n, piece);
    assert n in sent + [m];
  }

  lemma Repacks(key: nat)
    ensures Pack(PieceOf(key), BeginOf(key)) == key
  {
  }

  /** A message that is neither a bitfield nor a cancel. */
  ghost predicate Plain(m: seq<byte>) {
    m == [] || (m[0] != BITFIELD && m[0] != CANCEL)
  }

  lemma PlainKept(c: Config, pieceSet: set<nat>, flat: seq<byte>, p: Peer, m: seq<byte>)
    requires c.Valid() && |flat| == c.t.totalSize && pieceSet <= c.t.AllPieces()
    requires PeerTrue(c, pieceSet, flat, p) && TellsTruth(c, pieceSet, flat, m) && Plain(m)
    ensures PeerTrue(c, pieceSet, flat, Send(p, m))
  {
    hide TellsTruth, StillAsked, WasTold, PieceOf, BeginOf;
    var q := Send(p, m);
    forall key | key in q.ourRequests
      ensures StillAsked(c, q.sent, PieceOf(key), BeginOf(key))
    {
      SentOn(c, p.sent, m, PieceOf(key), BeginOf(key));
    }
    if GotBitfield(q.sent) {
      var n :| n in q.sent && n != [] && n[0] == BITFIELD;
      assert n in p.sent;
      forall k | k in pieceSet && k !in q.have
        ensures WasTold(q.sent, k)
      {
        ToldOn(p.sent, m, k);
      }
    }
  }

  lemma BitfieldKept(c: Config, pieceSet: set<nat>, flat: seq<byte>, p: Peer)
    requires c.Valid() && |flat| == c.t.totalSize && pieceSet <= c.t.AllPieces()
    requires PeerTrue(c, pieceSet, flat, p)
    ensures PeerTrue(c, pieceSet, flat, Send(p, BitfieldMessage(c, pieceSet)))
  {
    hide TellsTruth, StillAsked, BitfieldMessage, HasBit, PieceOf, BeginOf;
    var m := BitfieldMessage(c, pieceSet);
    var q := Send(p, m);
    BitfieldTrue(c, pieceSet, flat);
    BitfieldWired(c, pieceSet);
    forall key | key in q.ourRequests
      ensures StillAsked(c, q.sent, PieceOf(key), BeginOf(key))
    {
      SentOn(c, p.sent, m, PieceOf(key), BeginOf(key));
    }
    assert m in q.sent;
    assert forall k | k in pieceSet :: k in Bits(c, m) && Names(m, k);
  }

  lemma AskedKept(c: Config, pieceSet: set<nat>, flat: seq<byte>, p: Peer, piece: nat, b: nat, now: int)
    requires c.Valid() && |flat| == c.t.totalSize && pieceSet <= c.t.AllPieces()
    requires PeerTrue(c, pieceSet, flat, p) && piece < c.t.totalPieces && b < c.t.BlockCount(piece)
    ensures PeerTrue(c, pieceSet, flat, Asked(c, p, piece, b, now))
  {
    hide TellsTruth, StillAsked, RequestMessage, KnowsOurPieces, PieceOf, BeginOf, Pack, Torrent.BlockCount;
    var m, begin := RequestMessage(c, REQUEST, piece, b), b * STANDARD_BLOCK_LENGTH;
    RequestTrue(c, pieceSet, flat, REQUEST, piece, b);
    BlockWired(c, REQUEST, piece, b);
    PlainKept(c, pieceSet, flat, p, m);
    AskedNow(c, p.sent, m, piece, begin);
    BlockFits(c, piece, b);
    Unpack(piece, begin);
    SameTold(pieceSet, Send(p, m), Asked(c, p, piece, b, now));
  }

  lemma SameTold(pieceSet: set<nat>, p: Peer, q: Peer)
    requires KnowsOurPieces(pieceSet, p) && q.sent == p.sent && p.have <= q.have
    ensures KnowsOurPieces(pieceSet, q)
  {
    hide WasTold, GotBitfield;
  }

  lemma CancelledKept(c: Config, pieceSet: set<nat>, flat: seq<byte>, p: Peer, piece: nat, b: nat)
    requires c.Valid() && |flat| == c.t.totalSize && pieceSet <= c.t.AllPieces()
    requires PeerTrue(c, pieceSet, flat, p) && piece < c.t.totalPieces && b < c.t.BlockCount(piece)
    ensures PeerTrue(c, pieceSet, flat, Cancelled(c, p, piece, b))
  {
    hide TellsTruth, StillAsked, RequestMessage, PieceOf, BeginOf, Pack, Torrent.BlockCount, WasTold;
    var m, begin := RequestMessage(c, CANCEL, piece, b), b * STANDARD_BLOCK_LENGTH;
    var q := Cancelled(c, p, piece, b);
    RequestTrue(c, pieceSet, flat, CANCEL, piece, b);
    BlockWired(c, CANCEL, piece, b);
    forall key | key in q.ourRequests
      ensures StillAsked(c, q.sent, PieceOf(key), BeginOf(key))
    {
      Repacks(key);
      SentOn(c, p.sent, m, PieceOf(key), BeginOf(key));
    }
    if GotBitfield(q.sent) {
      var n :| n in q.sent && n != [] && n[0] == BITFIELD;
      assert n in p.sent;
      forall k | k in pieceSet && k !in q.have
        ensures WasTold(q.sent, k)
      {
        ToldOn(p.sent, m, k);
      }
    }
  }

  /** Forgetting requests and hearing of pieces takes nothing back. */
  lemma QuietKept(c: Config, pieceSet: set<nat>, flat: seq<byte>, p: Peer, q: Peer)
    requires c.Valid() && |flat| == c.t.totalSize && pieceSet <= c.t.AllPieces()
    requires PeerTrue(c, pieceSet, flat, p) && q.sent == p.sent && q.ourRequests.Keys <= p.ourRequests.Keys
    requires p.have <= q.have && (q.canReceiveBitfield ==> q.have == {})
    ensures PeerTrue(c, pieceSet, flat, q)
  {
    hide TellsTruth, StillAsked, KnowsOurPieces;
    SameTold(pieceSet, p, q);
  }

  lemma SignalKept(c: Config, pieceSet: set<nat>, flat: seq<byte>, p: Peer, m: seq<byte>)
    requires c.Valid() && |flat| == c.t.totalSize && pieceSet <= c.t.AllPieces()
    requires PeerTrue(c, pieceSet, flat, p) && |m| == 1 && m[0] <= NOT_INTERESTED
    ensures PeerTrue(c, pieceSet, flat, Send(p, m))
  {
    PlainKept(c, pieceSet, flat, p, m);
  }

  lemma SetInterestedKept(c: Config, pieceSet: set<nat>, flat: seq<byte>, p: Peer, interested: bool)
    requires c.Valid() && |flat| == c.t.totalSize && pieceSet <= c.t.AllPieces()
    requires PeerTrue(c, pieceSet, flat, p)
    ensures PeerTrue(c, pieceSet, flat, SetInterested(p, interested))
  {
    hide PeerTrue;
    var q := p.(amInterested := interested);
    StillKept(c, pieceSet, flat, p, q);
    SignalKept(c, pieceSet, flat, q, [if interested then INTERESTED else NOT_INTERESTED]);
  }

  lemma StillKept(c: Config, pieceSet: set<nat>, flat: seq<byte>, p: Peer, q: Peer)
    requires c.Valid() && |flat| == c.t.totalSize && pieceSet <= c.t.AllPieces()
    requires PeerTrue(c, pieceSet, flat, p) && q.sent == p.sent && q.ourRequests.Keys <= p.ourRequests.Keys
    requires q.have == p.have && (q.canReceiveBitfield ==> p.canReceiveBitfield)
    ensures PeerTrue(c, pieceSet, flat, q)
  {
    QuietKept(c, pieceSet, flat, p, q);
  }

  lemma SetChokeKept(c: Config, pieceSet: set<nat>, flat: seq<byte>, p: Peer, choke: bool)
    requires c.Valid() && |flat| == c.t.totalSize && pieceSet <= c.t.AllPieces()
    requires PeerTrue(c, pieceSet, flat, p)
    ensures PeerTrue(c, pieceSet, flat, SetChoke(p, choke))
  {
    hide PeerTrue;
    var q := p.(amChoking := choke);
    StillKept(c, pieceSet, flat, p, q);
    SignalKept(c, pieceSet, flat, q, [if choke then CHOKE else UNCHOKE]);
  }

  /** A piece that is new to us is announced to a peer that lacks it. */
  lemma AnnounceKept(c: Config, pieceSet: set<nat>, flat: seq<byte>, flat': seq<byte>, p: Peer, piece: nat)
    requires c.Valid() && |flat| == |flat'| == c.t.totalSize && pieceSet + {piece} <= c.t.AllPieces()
    requires forall i | i in pieceSet :: c.t.Slice(flat', i) == c.t.Slice(flat, i)
    requires PeerTrue(c, pieceSet, flat, p)
    ensures PeerTrue(c, pieceSet + {piece}, flat', Announce(p, piece))
  {
    hide TellsTruth, HaveMessage, Torrent.Slice, StillAsked, PieceOf, BeginOf;
    var after := pieceSet + {piece};
    HaveTrue(c, after, flat', piece);
    HaveWired(piece);
    var q, m := Announce(p, piece), HaveMessage(piece);
    forall n | n in q.sent
      ensures TellsTruth(c, after, flat', n)
    {
      if n in p.sent {
        StaysTrue(c, pieceSet, flat, after, flat', n);
      }
    }
    if piece !in p.have {
      forall key | key in q.ourRequests
        ensures StillAsked(c, q.sent, PieceOf(key), BeginOf(key))
      {
        SentOn(c, p.sent, m, PieceOf(key), BeginOf(key));
      }
      AnnounceTold(pieceSet, p, piece);
    }
  }

  lemma AnnounceTold(pieceSet: set<nat>, p: Peer, piece: nat)
    requires KnowsOurPieces(pieceSet, p) && piece < TWO_TO_THE_32
    ensures KnowsOurPieces(pieceSet + {piece}, Send(p, HaveMessage(piece)))
  {
    hide HaveMessage, WasTold, IsHave;
    var m := HaveMessage(piece);
    var q := Send(p, m);
    HaveWired(piece);
    assert m[0] == HAVE by {
      HaveIs(m, piece);
    }
    if GotBitfield(q.sent) {
      var n :| n in q.sent && n != [] && n[0] == BITFIELD;
      assert n in p.sent;
      forall k | k in pieceSet + {piece} && k !in q.have
        ensures WasTold(q.sent, k)
      {
        if k == piece {
          ToldNow(p.sent, m, k);
        } else {
          ToldOn(p.sent, m, k);
        }
      }
    }
  }

  lemma HaveIs(m: seq<byte>, piece: nat)
    requires IsHave(m, piece)
    ensures m != [] && m[0] == HAVE
  {
  }

  lemma ToldNow(sent: seq<seq<byte>>, m: seq<byte>, piece: nat)
    requires IsHave(m, piece)
    ensures WasTold(sent + [m], piece)
  {
    assert m in sent + [m] && Names(m, piece);
  }

  // ---- Operations ----

  /** One peer changes. */
  lemma PutTrue(c: Config, s: State, a: Address, p: Peer)
    requires SentTrue(c, s) && PeerTrue(c, s.pieceSet, s.flat, p)
    ensures SentTrue(c, WithPeer(s, a, p))
  {
    hide PeerTrue;
  }

  lemma GetTrue(c: Config, s: State, a: Address)
    requires SentTrue(c, s) && a in s.peers
    ensures c.Valid() && |s.flat| == c.t.totalSize && s.pieceSet <= c.t.AllPieces()
    ensures PeerTrue(c, s.pieceSet, s.flat, s.peers[a])
  {
    hide PeerTrue;
  }

  /** Only flags change. */
  lemma FlagsTrue(c: Config, s: State, a: Address, p: Peer)
    requires SentTrue(c, s) && a in s.peers
    requires p.sent == s.peers[a].sent && p.ourRequests.Keys <= s.peers[a].ourRequests.Keys
    requires p.have == s.peers[a].have && (p.canReceiveBitfield ==> s.peers[a].canReceiveBitfield)
    ensures SentTrue(c, WithPeer(s, a, p))
  {
    hide SentTrue, PeerTrue;
    GetTrue(c, s, a);
    StillKept(c, s.pieceSet, s.flat, s.peers[a], p);
    PutTrue(c, s, a, p);
  }

  /** Only the messages to peers matter. */
  lemma SameMessages(c: Config, s: State, s': State)
    requires SentTrue(c, s) && s'.pieceSet == s.pieceSet && s'.flat == s.flat && s'.peers == s.peers
    ensures SentTrue(c, s')
  {
  }

  lemma RequestedTrue(c: Config, s: State, a: Address, k: nat, b: nat, now: int)
    requires SentTrue(c, s) && a in s.peers && k in s.active && b < |s.active[k].counts|
    requires c.Valid() && k < c.t.totalPieces && b < c.t.BlockCount(k)
    ensures SentTrue(c, Requested(c, s, a, k, b, now))
  {
    hide SentTrue, PeerTrue, Asked, Torrent.BlockCount;
    GetTrue(c, s, a);
    AskedKept(c, s.pieceSet, s.flat, s.peers[a], k, b, now);
    PutTrue(c, s, a, Asked(c, s.peers[a], k, b, now));
    SameMessages(c, WithPeer(s, a, Asked(c, s.peers[a], k, b, now)), Requested(c, s, a, k, b, now));
  }

  lemma ActiveRequestTrue(c: Config, s: State, a: Address, now: int, endgame: bool, s': State)
    requires c.Valid() && Inv(c, s) && SentTrue(c, s) && a in s.peers && RequestsActive(c, s, a, now, endgame, s')
    ensures SentTrue(c, s')
  {
    hide SentTrue;
    var k, b: nat :|
      && k in s.active && k in s.peers[a].have
      && (if endgame then EndgameBlock(s.active[k].counts, b) else FreeBlock(s.active[k].counts, b))
      && s' == Requested(c, s, a, k, b, now);
    assert ActiveOk(c, s.pieceSet, k, s.active[k]);
    RequestedTrue(c, s, a, k, b, now);
  }

  lemma StartTrue(c: Config, s: State, a: Address, now: int, s': State)
    requires c.Valid() && SentTrue(c, s) && a in s.peers && StartsPiece(c, s, a, now, s')
    ensures SentTrue(c, s')
  {
    hide SentTrue;
    var k: nat :|
      && Unclaimed(s, s.peers[a], k) && k < c.t.totalPieces
      && c.t.BlockCount(k) > 0
      && s' == Requested(c, Started(c, s, k), a, k, 0, now);
    SameMessages(c, s, Started(c, s, k));
    RequestedTrue(c, Started(c, s, k), a, k, 0, now);
  }

  lemma RequestBlockTrue(c: Config, s: State, a: Address, now: int, s': State)
    requires c.Valid() && Inv(c, s) && SentTrue(c, s) && a in s.peers && RequestBlock(c, s, a, now, s')
    ensures SentTrue(c, s')
  {
    hide RequestsActive, StartsPiece, SentTrue, Unclaimed, NoFreeBlock, Complete, Inv, PeerTrue;
    var p := s.peers[a];
    if RequestsActive(c, s, a, now, false, s') {
      ActiveRequestTrue(c, s, a, now, false, s');
    } else if |s.active| >= c.maxActive {
    } else if exists k :: Unclaimed(s, p, k) {
      StartTrue(c, s, a, now, s');
    } else if exists k :: k in s.active && k in p.have && !Complete(s.active[k].counts) {
      ActiveRequestTrue(c, s, a, now, true, s');
    } else {
      GetTrue(c, s, a);
      SetInterestedKept(c, s.pieceSet, s.flat, p, false);
      PutTrue(c, s, a, SetInterested(p, false));
    }
  }

  lemma LateTrue(c: Config, s: State, a: Address)
    requires SentTrue(c, s) && a in s.peers
    ensures SentTrue(c, Late(s, a))
  {
    hide SentTrue;
    FlagsTrue(c, s, a, s.peers[a].(canReceiveBitfield := false));
  }

  lemma UnchokeTrue(c: Config, s: State, a: Address, now: int, s': State)
    requires c.Valid() && Inv(c, s) && SentTrue(c, s) && a in s.peers && Unchoke(c, s, a, now, s')
    ensures SentTrue(c, s')
  {
    hide SentTrue, RequestBlock, Inv;
    var s0 := WithPeer(s, a, s.peers[a].(peerChoking := false));
    var s1, s2 :| RequestBlock(c, s0, a, now, s1) && a in s1.peers
                  && RequestBlock(c, s1, a, now, s2) && a in s2.peers && s' == Late(s2, a);
    SessionSteps.UnchokedSound(c, s, a);
    SessionSteps.SoundInv(c, s0);
    FlagsTrue(c, s, a, s0.peers[a]);
    RequestBlockKeeps(c, s0, a, now, s1);
    RequestBlockTrue(c, s0, a, now, s1);
    RequestBlockTrue(c, s1, a, now, s2);
    LateTrue(c, s2, a);
  }

  // ---- Receiving ----

  lemma AnswerKept(c: Config, pieceSet: set<nat>, flat: seq<byte>, p: Peer, sender: bool, piece: nat, begin: nat,
                   asked: int)
    requires c.Valid() && |flat| == c.t.totalSize && pieceSet <= c.t.AllPieces() && piece < c.t.totalPieces
    requires begin / STANDARD_BLOCK_LENGTH < c.t.BlockCount(piece) && PeerTrue(c, pieceSet, flat, p)
    ensures PeerTrue(c, pieceSet, flat, Answer(c, p, sender, piece, begin, asked))
  {
    hide PeerTrue, Cancelled, Pack, Torrent.BlockCount;
    if sender {
      StillKept(c, pieceSet, flat, p, p.(ourRequests := p.ourRequests - {Pack(piece, begin)}));
    } else if asked > 1 && Pack(piece, begin) in p.ourRequests {
      CancelledKept(c, pieceSet, flat, p, piece, begin / STANDARD_BLOCK_LENGTH);
    }
  }

  lemma MarkedTrue(c: Config, s: State, a: Address, piece: nat, begin: nat)
    requires SentTrue(c, s) && a in s.peers && piece in s.active && piece < c.t.totalPieces
    requires begin / STANDARD_BLOCK_LENGTH < |s.active[piece].counts| == c.t.BlockCount(piece)
    ensures SentTrue(c, Marked(c, s, a, piece, begin))
  {
    hide PeerTrue, Answer;
    var asked := s.active[piece].counts[begin / STANDARD_BLOCK_LENGTH];
    forall b | b in s.peers
      ensures PeerTrue(c, s.pieceSet, s.flat, Answer(c, s.peers[b], b == a, piece, begin, asked))
    {
      AnswerKept(c, s.pieceSet, s.flat, s.peers[b], b == a, piece, begin, asked);
    }
  }

  lemma StoredTrue(c: Config, m: State, piece: nat, boxes: map<nat, seq<byte>>)
    requires SentTrue(c, m) && piece in m.active && piece < c.t.totalPieces && piece !in m.pieceSet
    requires |m.active[piece].buffer| == c.t.PieceLength(piece)
    ensures c.t.Start(piece) + |m.active[piece].buffer| <= |m.flat|
    ensures SentTrue(c, Stored(c, m, piece).(boxes := boxes))
  {
    hide PeerTrue, Saved, Announce;
    c.t.PieceBounds(piece);
    var content := m.active[piece].buffer;
    var flat := Splice(m.flat, c.t.Start(piece), content);
    forall i | i in m.pieceSet
      ensures c.t.Slice(flat, i) == c.t.Slice(m.flat, i)
    {
      c.t.SliceAfterWrite(m.flat, piece, content, i);
    }
    forall b | b in m.peers
      ensures PeerTrue(c, m.pieceSet + {piece}, flat, Announce(m.peers[b], piece))
    {
      AnnounceKept(c, m.pieceSet, m.flat, flat, m.peers[b], piece);
    }
  }

  lemma RecordBlockTrue(c: Config, s: State, a: Address, piece: nat, begin: nat, s': State)
    requires c.Valid() && Inv(c, s) && SentTrue(c, s) && a in s.peers && piece in s.active && piece < c.t.totalPieces
    requires |s.active[piece].buffer| == c.t.PieceLength(piece)
    requires begin / STANDARD_BLOCK_LENGTH < |s.active[piece].counts|
    requires RecordBlock(c, s, a, piece, begin, s')
    ensures SentTrue(c, s')
  {
    hide SentTrue, Stored, Complete, Torrent.Good;
    var m := Marked(c, s, a, piece, begin);
    assert ActiveOk(c, s.pieceSet, piece, s.active[piece]);
    MarkedTrue(c, s, a, piece, begin);
    if Complete(m.active[piece].counts) {
      if c.t.Good(s.active[piece].buffer, piece) {
        StoredTrue(c, m, piece, s'.boxes);
      } else {
        FlagsTrue(c, m, a, m.peers[a].(closed := true));
        SameMessages(c, WithPeer(m, a, m.peers[a].(closed := true)), s');
      }
    }
  }

  lemma ReceivePieceTrue(c: Config, s: State, a: Address, piece: nat, begin: nat, data: seq<byte>, now: int, s': State)
    requires c.Valid() && Inv(c, s) && SentTrue(c, s) && a in s.peers && piece in s.active && piece < c.t.totalPieces
    requires |s.active[piece].buffer| == c.t.PieceLength(piece) && begin <= c.t.PieceLength(piece)
    requires begin / STANDARD_BLOCK_LENGTH < |s.active[piece].counts| && |s.flat| == c.t.totalSize
    requires ReceivePiece(c, s, a, piece, begin, data, now, s')
    ensures SentTrue(c, s')
  {
    hide SentTrue, RecordBlock, RequestBlock, Inv;
    var s0 := Copied(s, piece, begin, data);
    var s1, s2 :| RecordBlock(c, s0, a, piece, begin, s1) && a in s1.peers
                  && RequestBlock(c, s1, a, now, s2) && a in s2.peers && s' == Late(s2, a);
    CopiedKeeps(c, s, piece, begin, data);
    SameMessages(c, s, s0);
    RecordBlockKeeps(c, s0, a, piece, begin, s1);
    RecordBlockTrue(c, s0, a, piece, begin, s1);
    RequestBlockTrue(c, s1, a, now, s2);
    LateTrue(c, s2, a);
  }

  // ---- Other messages and events ----

  lemma AnswerSentTrue(c: Config, s: State, a: Address, piece: nat, begin: nat, length: nat, s': State)
    requires SentTrue(c, s) && a in s.peers && piece in s.pieceSet && piece < c.t.totalPieces
    requires begin + length <= c.t.pieceLength && SendRequest(c, s, a, piece, begin, length, s')
    ensures SentTrue(c, s')
  {
    hide TellsTruth, PeerTrue, PaddedRead;
    if !s.peers[a].amChoking {
      var m := PieceMessage(piece, begin, PaddedRead(s.flat, c.t.Start(piece) + begin, length));
      PieceTrue(c, s.pieceSet, s.flat, piece, begin, length);
      PlainKept(c, s.pieceSet, s.flat, s.peers[a], m);
      PutTrue(c, s, a, Send(s.peers[a], m));
      SameMessages(c, WithPeer(s, a, Send(s.peers[a], m)), s');
    }
  }

  lemma ChokePeersTrue(c: Config, s: State, s': State)
    requires SentTrue(c, s) && ChokePeers(s, s')
    ensures SentTrue(c, s')
  {
    hide PeerTrue, SetChoke;
    forall b, choke | b in s.peers
      ensures PeerTrue(c, s.pieceSet, s.flat, SetChoke(s.peers[b], choke))
    {
      SetChokeKept(c, s.pieceSet, s.flat, s.peers[b], choke);
    }
  }

  lemma InterestTrue(c: Config, s: State, a: Address, interested: bool, s': State)
    requires SentTrue(c, s) && a in s.peers && PeerInterest(s, a, interested, s')
    ensures SentTrue(c, s')
  {
    hide SentTrue, ChokePeers;
    var s0 := WithPeer(s, a, s.peers[a].(peerInterested := interested));
    var s1 :| ChokePeers(s0, s1) && a in s1.peers && s' == Late(s1, a);
    FlagsTrue(c, s, a, s0.peers[a]);
    ChokePeersTrue(c, s0, s1);
    LateTrue(c, s1, a);
  }

  /** The peer names pieces; no bitfield is welcome any more. */
  lemma HearsTrue(c: Config, s: State, a: Address, have: set<nat>, interested: bool)
    requires SentTrue(c, s) && a in s.peers && s.peers[a].have <= have
    ensures SentTrue(c, Late(WithPeer(s, a, SetInterested(s.peers[a].(have := have), interested)), a))
    ensures SentTrue(c, Late(WithPeer(s, a, s.peers[a].(have := have)), a))
  {
    hide SentTrue, PeerTrue;
    var p := s.peers[a].(have := have, canReceiveBitfield := false);
    GetTrue(c, s, a);
    QuietKept(c, s.pieceSet, s.flat, s.peers[a], p);
    SetInterestedKept(c, s.pieceSet, s.flat, p, interested);
    PutTrue(c, s, a, p);
    PutTrue(c, s, a, SetInterested(p, interested));
    LateLast(s, a, s.peers[a].(have := have));
    LateLast(s, a, SetInterested(s.peers[a].(have := have), interested));
  }

  lemma LateLast(s: State, a: Address, p: Peer)
    requires a in s.peers
    ensures Late(WithPeer(s, a, p), a) == WithPeer(s, a, p.(canReceiveBitfield := false))
  {
    assert s.peers[a := p][a := p.(canReceiveBitfield := false)] == s.peers[a := p.(canReceiveBitfield := false)];
  }

  lemma HasPieceTrue(c: Config, s: State, a: Address, n: nat)
    requires SentTrue(c, s) && a in s.peers
    ensures SentTrue(c, Late(WithPeer(s, a, HasPiece(s, s.peers[a], n)), a))
  {
    hide SentTrue, SetInterested, Late;
    HearsTrue(c, s, a, s.peers[a].have + {n}, true);
  }

  /** A bitfield is welcome only as long as the peer has named no piece. */
  lemma HasPiecesTrue(c: Config, s: State, a: Address, have: set<nat>)
    requires SentTrue(c, s) && a in s.peers && s.peers[a].canReceiveBitfield
    ensures SentTrue(c, Late(WithPeer(s, a, HasPieces(s, s.peers[a], have)), a))
  {
    hide SentTrue, SetInterested, Late;
    assert s.peers[a].have == {} by {
      NothingNamed(c, s, a);
    }
    HearsTrue(c, s, a, have, Interesting(s.pieceSet, s.peers[a].(have := have)));
  }

  lemma NothingNamed(c: Config, s: State, a: Address)
    requires SentTrue(c, s) && a in s.peers && s.peers[a].canReceiveBitfield
    ensures s.peers[a].have == {}
  {
    assert PeerTrue(c, s.pieceSet, s.flat, s.peers[a]);
  }

  lemma ForgottenTrue(c: Config, s: State, keys: set<nat>)
    requires SentTrue(c, s)
    ensures SentTrue(c, Forgotten(s, keys))
  {
    hide AllTrue;
  }

  lemma DoChokeTrue(c: Config, s: State, a: Address)
    requires SentTrue(c, s) && a in s.peers
    ensures a in DoChoke(s, a).peers && SentTrue(c, DoChoke(s, a))
  {
    hide SentTrue;
    var keys := s.peers[a].ourRequests.Keys;
    ForgottenTrue(c, s, keys);
    FlagsTrue(c, Forgotten(s, keys), a, s.peers[a].(peerChoking := true, ourRequests := map[]));
  }

  lemma ClosePeerTrue(c: Config, s: State, a: Address)
    requires SentTrue(c, s) && a in s.peers
    ensures SentTrue(c, ClosePeer(s, a))
  {
    hide PeerTrue;
  }

  lemma ControlEffectTrue(c: Config, s: State, a: Address, m: seq<byte>, now: int, s': State)
    requires c.Valid() && Inv(c, s) && SentTrue(c, s) && a in s.peers && m != [] && m[0] <= BITFIELD
    requires CheckMessage(c, s, s.peers[a], m) == None && !Crashes(c, s, s.peers[a], m)
    requires Effect(c, s, a, m, now, s')
    ensures SentTrue(c, s')
  {
    hide SentTrue, Unchoke, PeerInterest, HasPiece, HasPieces, DoChoke, Bitsets.Decode, Field, Inv;
    if m[0] == CHOKE {
      DoChokeTrue(c, s, a);
      LateTrue(c, DoChoke(s, a), a);
    } else if m[0] == UNCHOKE {
      UnchokeTrue(c, s, a, now, s');
    } else if m[0] == INTERESTED || m[0] == NOT_INTERESTED {
      InterestTrue(c, s, a, m[0] == INTERESTED, s');
    } else if m[0] == HAVE {
      HasPieceTrue(c, s, a, Field(m, 1));
    } else {
      HasPiecesTrue(c, s, a, Bitsets.Decode(c.t.totalPieces, m[1..]).value);
    }
  }

  lemma EffectTrue(c: Config, s: State, a: Address, m: seq<byte>, now: int, s': State)
    requires c.Valid() && Inv(c, s) && SentTrue(c, s) && a in s.peers && m != []
    requires CheckMessage(c, s, s.peers[a], m) == None && !Crashes(c, s, s.peers[a], m)
    requires Effect(c, s, a, m, now, s')
    ensures SentTrue(c, s')
  {
    hide AllTrue, SendRequest, ReceivePiece, PeerTrue;
    if m[0] <= BITFIELD {
      ControlEffectTrue(c, s, a, m, now, s');
    } else if m[0] == REQUEST {
      AnswerSentTrue(c, s, a, Field(m, 1), Field(m, 5), Field(m, 9), s');
    } else if Receives(s, m) {
      AcceptedBlock(c, s, s.peers[a], m);
      ReceivePieceTrue(c, s, a, Field(m, 1), Field(m, 5), m[9..], now, s');
    } else if m[0] == EXTENSION {
      GetTrue(c, s, a);
      BitfieldKept(c, s.pieceSet, s.flat, s.peers[a]);
      PutTrue(c, s, a, Send(s.peers[a], BitfieldMessage(c, s.pieceSet)));
    } else {
      LateTrue(c, s, a);
    }
  }

  lemma GreetedTrue(c: Config, pieceSet: set<nat>, flat: seq<byte>, id: string, greeting: seq<byte>)
    requires c.Valid() && |flat| == c.t.totalSize && pieceSet <= c.t.AllPieces()
    requires greeting == BitfieldMessage(c, pieceSet) || (greeting != [] && greeting[0] == EXTENSION)
    ensures PeerTrue(c, pieceSet, flat, Send(NewPeer(id), greeting))
  {
    hide BitfieldMessage;
    NewTrue(c, pieceSet, flat, id);
    if greeting == BitfieldMessage(c, pieceSet) {
      BitfieldKept(c, pieceSet, flat, NewPeer(id));
    } else {
      PlainKept(c, pieceSet, flat, NewPeer(id), greeting);
    }
  }

  lemma NewTrue(c: Config, pieceSet: set<nat>, flat: seq<byte>, id: string)
    requires c.Valid() && |flat| == c.t.totalSize && pieceSet <= c.t.AllPieces()
    ensures PeerTrue(c, pieceSet, flat, NewPeer(id))
  {
  }

  lemma AddPeerTrue(c: Config, s: State, a: Address, id: string, greeting: seq<byte>)
    requires SentTrue(c, s) && GreetingOk(c, s, greeting)
    ensures SentTrue(c, AddPeer(c, s, a, id, greeting))
  {
    hide PeerTrue, BitfieldMessage;
    GreetedTrue(c, s.pieceSet, s.flat, id, greeting);
    PutTrue(c, s, a, Send(NewPeer(id), greeting));
  }

  lemma KeepAliveTrue(c: Config, s: State, a: Address, now: int)
    requires SentTrue(c, s) && a in s.peers
    ensures SentTrue(c, WithPeer(Forgotten(s, TimedOut(s.peers[a], now)), a, Send(s.peers[a], [])))
  {
    hide SentTrue, TimedOut, PeerTrue, Forgotten;
    var s1 := Forgotten(s, TimedOut(s.peers[a], now));
    SessionSteps.ForgottenFrame(s, TimedOut(s.peers[a], now));
    ForgottenTrue(c, s, TimedOut(s.peers[a], now));
    GetTrue(c, s1, a);
    PlainKept(c, s1.pieceSet, s1.flat, s.peers[a], []);
    PutTrue(c, s1, a, Send(s.peers[a], []));
  }

  lemma StepTrue(c: Config, s: State, e: Event, s': State)
    requires c.Valid() && Inv(c, s) && Step(c, s, e, s') && SentTrue(c, s)
    ensures SentTrue(c, s')
  {
    hide SentTrue, AddPeer, ClosePeer, Effect, ChokePeers, CheckMessage, Crashes, Forgotten, TimedOut;
    match e
    case ChokeTick => ChokePeersTrue(c, s, s');
    case Connect(a, id, greeting) => AddPeerTrue(c, s, a, id, greeting);
    case Message(a, m, now) =>
      ClosePeerTrue(c, s, a);
      if m.Some? && m.value != [] && CheckMessage(c, s, s.peers[a], m.value) == None {
        EffectTrue(c, s, a, m.value, now, s');
      }
    case KeepAlive(a, now) => KeepAliveTrue(c, s, a, now);
    case Expire(a) => ClosePeerTrue(c, s, a);
  }

  lemma {:induction false} RunTrue(c: Config, s: State, events: seq<Event>, s': State)
    requires c.Valid() && Inv(c, s) && Reaches(c, s, events, s') && SentTrue(c, s)
    ensures SentTrue(c, s')
    decreases |events|
  {
    hide Step, Inv, SentTrue;
    if events != [] {
      var s1 :| Step(c, s, events[0], s1) && Reaches(c, s1, events[1..], s');
      StepKeeps(c, s, events[0], s1);
      StepTrue(c, s, events[0], s1);
      RunTrue(c, s1, events[1..], s');
    }
  }

  lemma RememberedOnWire(c: Config, s: State, a: Address, piece: nat, block: nat)
    requires c.Valid() && SentTrue(c, s) && a in s.peers
    requires piece < c.t.totalPieces && block < c.t.BlockCount(piece)
    requires Pack(piece, block * STANDARD_BLOCK_LENGTH) in s.peers[a].ourRequests
    ensures StillAsked(c, s.peers[a].sent, piece, block * STANDARD_BLOCK_LENGTH)
  {
    hide StillAsked, Pack, PieceOf, BeginOf, Torrent.BlockCount;
    assert PeerTrue(c, s.pieceSet, s.flat, s.peers[a]);
    BlockFits(c, piece, block);
    Unpack(piece, block * STANDARD_BLOCK_LENGTH);
  }

  lemma InitialTrue(c: Config, s: State)
    requires c.Valid() && Initial(c, s)
    ensures SentTrue(c, s)
  {
  }

  lemma ReachableTrue(c: Config, s: State)
    requires c.Valid() && SessionLimits.Reachable(c, s)
    ensures SentTrue(c, s)
  {
    hide Inv, Reaches, Initial, SentTrue;
    var s0, events :| Initial(c, s0) && Reaches(c, s0, events, s);
    InitialInv(c, s0);
    InitialTrue(c, s0);
    RunTrue(c, s0, events, s);
  }

  // ---- Every reachable state ----

  /** Each block given to a peer holds the stored bytes of a piece we have, HAVE and BITFIELD name only pieces we have,
      and each block asked for lies in its piece. */
  lemma OnlyTruthIsTold(c: Config, s: State, a: Address, m: seq<byte>)
    requires c.Valid() && SessionLimits.Reachable(c, s) && a in s.peers && m in s.peers[a].sent
    ensures |s.flat| == c.t.totalSize && s.pieceSet <= c.t.AllPieces() && TellsTruth(c, s.pieceSet, s.flat, m)
  {
    hide TellsTruth;
    ReachableTrue(c, s);
    assert PeerTrue(c, s.pieceSet, s.flat, s.peers[a]);
  }

  /** What we remember to have asked a peer for was asked for on the wire, with its place and full length, and was not
      cancelled since. */
  lemma RequestsAreOnWire(c: Config, s: State, a: Address, piece: nat, block: nat)
    requires c.Valid() && SessionLimits.Reachable(c, s) && a in s.peers
    requires piece < c.t.totalPieces && block < c.t.BlockCount(piece)
    requires Pack(piece, block * STANDARD_BLOCK_LENGTH) in s.peers[a].ourRequests
    ensures StillAsked(c, s.peers[a].sent, piece, block * STANDARD_BLOCK_LENGTH)
  {
    hide SentTrue, StillAsked, Pack, Torrent.BlockCount;
    ReachableTrue(c, s);
    RememberedOnWire(c, s, a, piece, block);
  }

  /** A peer that was ever given our bitfield was told, by bitfield or HAVE, of every piece that we have and it
      lacks. */
  lemma PiecesAreTold(c: Config, s: State, a: Address, k: nat)
    requires c.Valid() && SessionLimits.Reachable(c, s) && a in s.peers && GotBitfield(s.peers[a].sent)
    requires k in s.pieceSet && k !in s.peers[a].have
    ensures WasTold(s.peers[a].sent, k)
  {
    hide WasTold, GotBitfield;
    ReachableTrue(c, s);
    assert PeerTrue(c, s.pieceSet, s.flat, s.peers[a]);
  }
}
