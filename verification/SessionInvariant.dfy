/** The invariant of a session, and that every operation of SessionState keeps it. */
module SessionInvariant {
  import opened Arith
  import opened Bytes
  import opened Geometry
  import opened SessionState

  // ---- The invariant ----

  /** goodPieces counts the pieces we have; left counts the bytes we lack. */
  ghost predicate Accounting(t: Torrent, pieceSet: set<nat>, goodPieces: nat, left: nat) {
    && pieceSet <= t.AllPieces()
    && goodPieces == |pieceSet|
    && left == t.SumLengths(t.Missing(pieceSet), t.totalPieces)
  }

  /** An active piece has its full buffer, and at least one block that is not here yet. */
  ghost predicate ActiveOk(c: Config, pieceSet: set<nat>, k: nat, v: Active) {
    && k < c.t.totalPieces && k !in pieceSet
    && |v.buffer| == c.t.PieceLength(k)
    && |v.counts| == c.t.BlockCount(k)
    && (forall b | 0 <= b < |v.counts| :: v.counts[b] >= -1)
    && !Complete(v.counts)
  }

  ghost predicate ActivesOk(c: Config, pieceSet: set<nat>, active: map<nat, Active>) {
    && |active| <= c.maxActive
    && forall k | k in active :: ActiveOk(c, pieceSet, k, active[k])
  }

  /** A request names a block of a piece of the torrent. */
  ghost predicate KeyOk(c: Config, key: nat) {
    exists piece: nat, b: nat ::
      piece < c.t.totalPieces && b < c.t.BlockCount(piece) && key == Pack(piece, b * STANDARD_BLOCK_LENGTH)
  }

  /** The peer was last told what our flags say, and was told only changes. */
  ghost predicate SignalsOk(p: Peer) {
    && Alternates(p.sent, CHOKE, UNCHOKE, true) && Signal(p.sent, CHOKE, UNCHOKE, true) == p.amChoking
    && Alternates(p.sent, INTERESTED, NOT_INTERESTED, false)
    && Signal(p.sent, INTERESTED, NOT_INTERESTED, false) == p.amInterested
  }

  ghost predicate PeerOk(c: Config, pieceSet: set<nat>, p: Peer) {
    && p.have <= c.t.AllPieces()
    && (Interesting(pieceSet, p) ==> p.amInterested)
    && (forall key | key in p.ourRequests :: KeyOk(c, key))
    && SignalsOk(p)
  }

  ghost predicate AllPeersOk(c: Config, pieceSet: set<nat>, peers: map<Address, Peer>) {
    && |peers| <= MAX_NUM_PEERS
    && forall a | a in peers :: PeerOk(c, pieceSet, peers[a])
  }

  ghost predicate SlotsOk(peers: map<Address, Peer>) {
    |Uploading(peers)| <= UPLOAD_SLOTS
  }

  /** Cached pieces are pieces we have, and equal to what is stored. */
  ghost predicate StoreOk(c: Config, pieceSet: set<nat>, flat: seq<byte>, boxes: map<nat, seq<byte>>)
    requires c.Valid()
  {
    && |flat| == c.t.totalSize
    && pieceSet <= c.t.AllPieces()
    && (!c.cached ==> boxes == map[])
    && forall i | i in boxes :: i in pieceSet && boxes[i] == c.t.Slice(flat, i)
  }

  ghost predicate Inv(c: Config, s: State)
    requires c.Valid()
  {
    && Accounting(c.t, s.pieceSet, s.goodPieces, s.left)
    && ActivesOk(c, s.pieceSet, s.active)
    && AllPeersOk(c, s.pieceSet, s.peers)
    && SlotsOk(s.peers)
    && StoreOk(c, s.pieceSet, s.flat, s.boxes)
  }

  /** Every piece we have is stored with the content the torrent's hash asks for. */
  ghost predicate Verified(t: Torrent, pieceSet: set<nat>, flat: seq<byte>)
    requires t.Valid() && |flat| == t.totalSize && pieceSet <= t.AllPieces()
  {
    forall i | i in pieceSet :: t.Good(t.Slice(flat, i), i)
  }

  // ---- One peer ----

  /** Both peers stand alike towards the upload slots. */
  ghost predicate SameSlot(p: Peer, q: Peer) {
    p.peerInterested == q.peerInterested && p.amChoking == q.amChoking
  }

  /** Only one-byte messages are signals. */
  lemma SendKeepsSignals(p: Peer, message: seq<byte>)
    requires SignalsOk(p) && |message| != 1
    ensures SignalsOk(Send(p, message))
  {
    var sent := Send(p, message).sent;
    assert sent[..|sent| - 1] == p.sent;
  }

  lemma SetChokeKeepsSignals(p: Peer, choke: bool)
    requires SignalsOk(p)
    ensures SignalsOk(SetChoke(p, choke)) && SetChoke(p, choke).amChoking == choke
  {
    var q := SetChoke(p, choke);
    if choke != p.amChoking {
      assert q.sent[..|q.sent| - 1] == p.sent;
    }
  }

  lemma SetInterestedKeepsSignals(p: Peer, interested: bool)
    requires SignalsOk(p)
    ensures SignalsOk(SetInterested(p, interested)) && SetInterested(p, interested).amInterested == interested
  {
    var q := SetInterested(p, interested);
    if interested != p.amInterested {
      assert q.sent[..|q.sent| - 1] == p.sent;
    }
  }

  // ---- Generic steps ----

  /** Replacing peers: each one stays well-formed and none takes an upload slot it did not have. */
  lemma ReplacePeers(c: Config, s: State, peers: map<Address, Peer>)
    requires c.Valid() && Inv(c, s)
    requires AllPeersOk(c, s.pieceSet, peers)
    requires Uploading(peers) <= Uploading(s.peers)
    ensures Inv(c, s.(peers := peers))
  {
    SubsetSize(Uploading(peers), Uploading(s.peers));
  }

  lemma SameUploading(before: map<Address, Peer>, after: map<Address, Peer>)
    requires after.Keys == before.Keys
    requires forall a | a in before :: SameSlot(before[a], after[a])
    ensures Uploading(after) == Uploading(before)
  {
  }

  lemma PutPeerOk(c: Config, pieceSet: set<nat>, peers: map<Address, Peer>, a: Address, p: Peer)
    requires AllPeersOk(c, pieceSet, peers) && PeerOk(c, pieceSet, p)
    requires a in peers || |peers| < MAX_NUM_PEERS
    ensures AllPeersOk(c, pieceSet, peers[a := p])
  {
    if a in peers {
      UpdatePresent(peers, a, p);
    } else {
      UpdateAbsent(peers, a, p);
    }
  }

  lemma PutPeerSlot(peers: map<Address, Peer>, a: Address, p: Peer)
    requires a in peers && SameSlot(peers[a], p)
    ensures Uploading(peers[a := p]) == Uploading(peers)
    ensures InterestedPeers(peers[a := p]) == InterestedPeers(peers)
  {
  }

  lemma PutPeerNoSlot(peers: map<Address, Peer>, a: Address, p: Peer)
    requires a in peers ==> (p.peerInterested && !p.amChoking ==> peers[a].peerInterested && !peers[a].amChoking)
    requires a !in peers ==> p.amChoking
    ensures Uploading(peers[a := p]) <= Uploading(peers)
  {
  }

  lemma ReplacePeer(c: Config, s: State, a: Address, p: Peer)
    requires c.Valid() && Inv(c, s) && a in s.peers
    requires PeerOk(c, s.pieceSet, p)
    requires p.peerInterested && !p.amChoking ==> s.peers[a].peerInterested && !s.peers[a].amChoking
    ensures Inv(c, WithPeer(s, a, p))
  {
    PutPeerOk(c, s.pieceSet, s.peers, a, p);
    PutPeerNoSlot(s.peers, a, p);
    ReplacePeers(c, s, s.peers[a := p]);
  }

  lemma ReplaceActive(c: Config, s: State, k: nat, v: Active)
    requires c.Valid() && Inv(c, s) && k in s.active
    requires ActiveOk(c, s.pieceSet, k, v)
    ensures Inv(c, s.(active := s.active[k := v]))
  {
    UpdatePresent(s.active, k, v);
  }

  lemma DropActive(c: Config, s: State, k: nat)
    requires c.Valid() && Inv(c, s)
    ensures Inv(c, s.(active := s.active - {k}))
  {
    SubsetSize((s.active - {k}).Keys, s.active.Keys);
  }

  // ---- Requesting ----

  lemma FreshOk(c: Config, pieceSet: set<nat>, k: nat)
    requires c.Valid() && k < c.t.totalPieces && k !in pieceSet
    ensures ActiveOk(c, pieceSet, k, Fresh(c, k)) && c.t.BlockCount(k) > 0
  {
    c.t.PieceBounds(k);
    c.t.BlockBounds(k);
    assert Fresh(c, k).counts[0] == 0;
  }

  lemma StartedKeeps(c: Config, s: State, k: nat)
    requires c.Valid() && Inv(c, s) && |s.active| < c.maxActive
    requires k < c.t.totalPieces && k !in s.pieceSet && k !in s.active
    ensures Inv(c, Started(c, s, k)) && c.t.BlockCount(k) > 0 && Started(c, s, k).active[k].counts[0] == 0
  {
    FreshOk(c, s.pieceSet, k);
    UpdateAbsent(s.active, k, Fresh(c, k));
  }

  lemma AskedOk(c: Config, pieceSet: set<nat>, p: Peer, piece: nat, b: nat, now: int)
    requires PeerOk(c, pieceSet, p)
    requires piece < c.t.totalPieces && b < c.t.BlockCount(piece)
    ensures PeerOk(c, pieceSet, Asked(c, p, piece, b, now))
  {
    var key := Pack(piece, b * STANDARD_BLOCK_LENGTH);
    assert KeyOk(c, key);
    SendKeepsSignals(p.(ourRequests := p.ourRequests[key := now]), RequestMessage(c, REQUEST, piece, b));
  }

  lemma BumpedOk(c: Config, pieceSet: set<nat>, k: nat, v: Active, b: nat)
    requires ActiveOk(c, pieceSet, k, v) && b < |v.counts| && v.counts[b] >= 0
    ensures ActiveOk(c, pieceSet, k, Bumped(v, b))
  {
    assert Bumped(v, b).counts[b] != -1;
  }

  lemma RequestedKeeps(c: Config, s: State, a: Address, k: nat, b: nat, now: int)
    requires c.Valid() && Inv(c, s) && a in s.peers && k in s.active
    requires b < |s.active[k].counts| && s.active[k].counts[b] >= 0
    ensures Inv(c, Requested(c, s, a, k, b, now))
  {
    assert ActiveOk(c, s.pieceSet, k, s.active[k]);
    BumpedOk(c, s.pieceSet, k, s.active[k], b);
    ReplaceActive(c, s, k, Bumped(s.active[k], b));
    AskedOk(c, s.pieceSet, s.peers[a], k, b, now);
    ReplacePeer(c, s.(active := s.active[k := Bumped(s.active[k], b)]), a, Asked(c, s.peers[a], k, b, now));
  }

  /** When no piece can be started and no active piece is of use, the peer has nothing we lack. */
  lemma NothingLeftToAsk(c: Config, s: State, p: Peer)
    requires c.Valid() && Inv(c, s)
    requires !exists k :: Unclaimed(s, p, k)
    requires !exists k :: k in s.active && k in p.have && !Complete(s.active[k].counts)
    ensures !Interesting(s.pieceSet, p)
  {
    forall i | i in p.have
      ensures i in s.pieceSet
    {
      if i in s.active {
        assert ActiveOk(c, s.pieceSet, i, s.active[i]);
      } else if i !in s.pieceSet {
        assert Unclaimed(s, p, i);
      }
    }
  }

  lemma RequestsActiveKeeps(c: Config, s: State, a: Address, now: int, endgame: bool, s': State)
    requires c.Valid() && Inv(c, s) && a in s.peers
    requires RequestsActive(c, s, a, now, endgame, s')
    ensures Inv(c, s')
  {
    var k, b: nat :|
      && k in s.active && k in s.peers[a].have
      && (if endgame then EndgameBlock(s.active[k].counts, b) else FreeBlock(s.active[k].counts, b))
      && s' == Requested(c, s, a, k, b, now);
    RequestedKeeps(c, s, a, k, b, now);
  }

  lemma StartsPieceKeeps(c: Config, s: State, a: Address, now: int, s': State)
    requires c.Valid() && Inv(c, s) && a in s.peers && |s.active| < c.maxActive
    requires StartsPiece(c, s, a, now, s')
    ensures Inv(c, s')
  {
    var k: nat :|
      && Unclaimed(s, s.peers[a], k) && k < c.t.totalPieces
      && c.t.BlockCount(k) > 0
      && s' == Requested(c, Started(c, s, k), a, k, 0, now);
    StartedKeeps(c, s, k);
    RequestedKeeps(c, Started(c, s, k), a, k, 0, now);
  }

  lemma LosesInterestKeeps(c: Config, s: State, a: Address)
    requires c.Valid() && Inv(c, s) && a in s.peers
    requires !exists k :: Unclaimed(s, s.peers[a], k)
    requires !exists k :: k in s.active && k in s.peers[a].have && !Complete(s.active[k].counts)
    ensures Inv(c, WithPeer(s, a, SetInterested(s.peers[a], false)))
  {
    var p := s.peers[a];
    NothingLeftToAsk(c, s, p);
    assert PeerOk(c, s.pieceSet, p);
    SetInterestedKeepsSignals(p, false);
    ReplacePeer(c, s, a, SetInterested(p, false));
  }

  lemma RequestBlockKeeps(c: Config, s: State, a: Address, now: int, s': State)
    requires c.Valid() && Inv(c, s) && a in s.peers
    requires RequestBlock(c, s, a, now, s')
    ensures Inv(c, s')
  {
    var p := s.peers[a];
    if RequestsActive(c, s, a, now, false, s') {
      RequestsActiveKeeps(c, s, a, now, false, s');
    } else if |s.active| >= c.maxActive {
    } else if exists k :: Unclaimed(s, p, k) {
      StartsPieceKeeps(c, s, a, now, s');
    } else if exists k :: k in s.active && k in p.have && !Complete(s.active[k].counts) {
      RequestsActiveKeeps(c, s, a, now, true, s');
    } else {
      LosesInterestKeeps(c, s, a);
    }
  }

  /** RequestBlock touches neither the store nor the set of pieces, and no other peer. */
  lemma RequestBlockFrame(c: Config, s: State, a: Address, now: int, s': State)
    requires a in s.peers && RequestBlock(c, s, a, now, s')
    ensures s'.flat == s.flat && s'.boxes == s.boxes && s'.pieceSet == s.pieceSet
    ensures s'.goodPieces == s.goodPieces && s'.left == s.left && s'.saved == s.saved
    ensures s'.peers == s.peers[a := s'.peers[a]]
  {
  }

  // ---- Receiving ----

  lemma CopiedKeeps(c: Config, s: State, k: nat, begin: nat, data: seq<byte>)
    requires c.Valid() && Inv(c, s) && k in s.active && begin <= |s.active[k].buffer|
    ensures Inv(c, Copied(s, k, begin, data))
  {
    assert ActiveOk(c, s.pieceSet, k, s.active[k]);
    ReplaceActive(c, s, k, Filled(s.active[k], begin, data));
  }

  lemma AnswerOk(c: Config, pieceSet: set<nat>, p: Peer, sender: bool, piece: nat, begin: nat, asked: int)
    requires PeerOk(c, pieceSet, p)
    ensures PeerOk(c, pieceSet, Answer(c, p, sender, piece, begin, asked))
    ensures SameSlot(p, Answer(c, p, sender, piece, begin, asked))
  {
    hide Alternates, Signal, KeyOk, RequestMessage, Pack;
    var block := begin / STANDARD_BLOCK_LENGTH;
    var q := p.(ourRequests := p.ourRequests - {Pack(piece, block * STANDARD_BLOCK_LENGTH)});
    SendKeepsSignals(q, RequestMessage(c, CANCEL, piece, block));
  }

  lemma AnsweredOk(c: Config, pieceSet: set<nat>, peers: map<Address, Peer>, a: Address, piece: nat, begin: nat,
                   asked: int)
    requires AllPeersOk(c, pieceSet, peers)
    ensures AllPeersOk(c, pieceSet, Answered(c, peers, a, piece, begin, asked))
    ensures Uploading(Answered(c, peers, a, piece, begin, asked)) == Uploading(peers)
  {
    var after := Answered(c, peers, a, piece, begin, asked);
    assert after.Keys == peers.Keys;
    forall b | b in after
      ensures PeerOk(c, pieceSet, after[b]) && SameSlot(peers[b], after[b])
    {
      assert PeerOk(c, pieceSet, peers[b]);
      AnswerOk(c, pieceSet, peers[b], b == a, piece, begin, asked);
    }
    SameUploading(peers, after);
  }

  /** Marking a block can complete its piece; all else of the invariant holds after it. */
  lemma MarkedThenDroppedKeeps(c: Config, s: State, a: Address, piece: nat, begin: nat)
    requires c.Valid() && Inv(c, s) && a in s.peers && piece in s.active
    requires begin / STANDARD_BLOCK_LENGTH < |s.active[piece].counts|
    ensures var m := Marked(c, s, a, piece, begin);
            Inv(c, m.(active := m.active - {piece}))
  {
    var block := begin / STANDARD_BLOCK_LENGTH;
    var asked := s.active[piece].counts[block];
    var peers := Answered(c, s.peers, a, piece, begin, asked);
    AnsweredOk(c, s.pieceSet, s.peers, a, piece, begin, asked);
    ReplacePeers(c, s, peers);
    DropActive(c, s.(peers := peers), piece);
    RemoveUpdated(s.active, piece, HereNow(s.active[piece], block));
  }

  lemma MarkedKeeps(c: Config, s: State, a: Address, piece: nat, begin: nat)
    requires c.Valid() && Inv(c, s) && a in s.peers && piece in s.active
    requires begin / STANDARD_BLOCK_LENGTH < |s.active[piece].counts|
    requires !Complete(HereNow(s.active[piece], begin / STANDARD_BLOCK_LENGTH).counts)
    ensures Inv(c, Marked(c, s, a, piece, begin))
  {
    var block := begin / STANDARD_BLOCK_LENGTH;
    var asked := s.active[piece].counts[block];
    AnsweredOk(c, s.pieceSet, s.peers, a, piece, begin, asked);
    assert ActiveOk(c, s.pieceSet, piece, s.active[piece]);
    ReplaceActive(c, s, piece, HereNow(s.active[piece], block));
    ReplacePeers(c, s.(active := s.active[piece := HereNow(s.active[piece], block)]),
                 Answered(c, s.peers, a, piece, begin, asked));
  }

  /** One more piece: the counters follow. */
  lemma StoredAccounting(c: Config, s: State, piece: nat)
    requires c.Valid() && Accounting(c.t, s.pieceSet, s.goodPieces, s.left) && piece < c.t.totalPieces
    requires piece !in s.pieceSet
    ensures c.t.PieceLength(piece) <= s.left < TWO_TO_THE_63
    ensures Accounting(c.t, s.pieceSet + {piece}, s.goodPieces + 1, Uint64Minus(s.left, c.t.PieceLength(piece)))
  {
    hide Torrent.Valid, Torrent.SumLengths, Uint64Minus;
    var t := c.t;
    var after := s.pieceSet + {piece};
    assert t.Missing(s.pieceSet) == t.Missing(after) + {piece};
    t.SumAdd(t.Missing(after), piece, t.totalPieces);
    t.HeldPlusMissing(s.pieceSet);
    SmallMinus(s.left, t.PieceLength(piece));
  }

  lemma AnnounceOk(c: Config, pieceSet: set<nat>, p: Peer, piece: nat)
    requires PeerOk(c, pieceSet, p)
    ensures PeerOk(c, pieceSet + {piece}, Announce(p, piece))
    ensures SameSlot(p, Announce(p, piece))
  {
    SendKeepsSignals(p, HaveMessage(piece));
  }

  lemma AnnouncedOk(c: Config, pieceSet: set<nat>, peers: map<Address, Peer>, piece: nat)
    requires AllPeersOk(c, pieceSet, peers)
    ensures AllPeersOk(c, pieceSet + {piece}, Announced(peers, piece))
    ensures Uploading(Announced(peers, piece)) == Uploading(peers)
  {
    var after := Announced(peers, piece);
    assert after.Keys == peers.Keys;
    forall b | b in after
      ensures PeerOk(c, pieceSet + {piece}, after[b]) && SameSlot(peers[b], after[b])
    {
      assert PeerOk(c, pieceSet, peers[b]);
      AnnounceOk(c, pieceSet, peers[b], piece);
    }
    SameUploading(peers, after);
  }

  lemma BoxesAfterWrite(c: Config, pieceSet: set<nat>, flat: seq<byte>, boxes: map<nat, seq<byte>>,
                        piece: nat, content: seq<byte>, after: map<nat, seq<byte>>)
    requires c.Valid() && StoreOk(c, pieceSet, flat, boxes)
    requires piece < c.t.totalPieces && |content| == c.t.PieceLength(piece)
    requires CacheKeeps(c, after, boxes[piece := content])
    ensures c.t.Start(piece) + |content| <= |flat|
    ensures StoreOk(c, pieceSet + {piece}, Splice(flat, c.t.Start(piece), content), after)
  {
    c.t.PieceBounds(piece);
    forall i | i in after
      ensures i in pieceSet + {piece} && after[i] == c.t.Slice(Splice(flat, c.t.Start(piece), content), i)
    {
      c.t.SliceAfterWrite(flat, piece, content, i);
    }
  }

  lemma ActivesAfterStore(c: Config, pieceSet: set<nat>, active: map<nat, Active>, piece: nat)
    requires ActivesOk(c, pieceSet, active) && piece !in active
    ensures ActivesOk(c, pieceSet + {piece}, active)
  {
    forall k | k in active
      ensures ActiveOk(c, pieceSet + {piece}, k, active[k])
    {
      assert ActiveOk(c, pieceSet, k, active[k]);
    }
  }

  /** Storing a piece, stated on the state before it in which the piece is no longer active. */
  lemma StoredKeeps(c: Config, m: State, piece: nat, boxes: map<nat, seq<byte>>)
    requires c.Valid() && piece in m.active && Inv(c, m.(active := m.active - {piece}))
    requires piece < c.t.totalPieces && piece !in m.pieceSet && |m.active[piece].buffer| == c.t.PieceLength(piece)
    requires CacheKeeps(c, boxes, m.boxes[piece := m.active[piece].buffer])
    ensures c.t.Start(piece) + |m.active[piece].buffer| <= |m.flat|
    ensures Inv(c, Stored(c, m, piece).(boxes := boxes))
  {
    StoredAccounting(c, m, piece);
    ActivesAfterStore(c, m.pieceSet, m.active - {piece}, piece);
    AnnouncedOk(c, m.pieceSet, m.peers, piece);
    BoxesAfterWrite(c, m.pieceSet, m.flat, m.boxes, piece, m.active[piece].buffer, boxes);
  }

  lemma RecordBlockKeeps(c: Config, s: State, a: Address, piece: nat, begin: nat, s': State)
    requires c.Valid() && Inv(c, s) && a in s.peers && piece in s.active
    requires piece < c.t.totalPieces && |s.active[piece].buffer| == c.t.PieceLength(piece)
    requires begin / STANDARD_BLOCK_LENGTH < |s.active[piece].counts|
    requires RecordBlock(c, s, a, piece, begin, s')
    ensures Inv(c, s')
  {
    var m := Marked(c, s, a, piece, begin);
    assert ActiveOk(c, s.pieceSet, piece, s.active[piece]);
    if !Complete(m.active[piece].counts) {
      MarkedKeeps(c, s, a, piece, begin);
    } else {
      MarkedThenDroppedKeeps(c, s, a, piece, begin);
      var s1 := m.(active := m.active - {piece});
      if c.t.Good(s.active[piece].buffer, piece) {
        StoredKeeps(c, m, piece, s'.boxes);
      } else {
        assert PeerOk(c, s.pieceSet, s1.peers[a]);
        ReplacePeer(c, s1, a, s1.peers[a].(closed := true));
      }
    }
  }

  // ---- Forgetting ----

  lemma LessAskedOk(c: Config, pieceSet: set<nat>, k: nat, v: Active, keys: set<nat>)
    requires ActiveOk(c, pieceSet, k, v)
    ensures ActiveOk(c, pieceSet, k, v.(counts := LessAsked(v.counts, k, keys)))
  {
    var b :| 0 <= b < |v.counts| && v.counts[b] != -1;
    assert LessAsked(v.counts, k, keys)[b] != -1;
  }

  lemma LessAskedAllOk(c: Config, pieceSet: set<nat>, active: map<nat, Active>, keys: set<nat>)
    requires ActivesOk(c, pieceSet, active)
    ensures ActivesOk(c, pieceSet, LessAskedAll(active, keys))
  {
    var after := LessAskedAll(active, keys);
    assert after.Keys == active.Keys;
    forall k | k in after
      ensures ActiveOk(c, pieceSet, k, after[k])
    {
      LessAskedOk(c, pieceSet, k, active[k], keys);
    }
  }

  lemma ForgottenKeeps(c: Config, s: State, keys: set<nat>)
    requires c.Valid() && Inv(c, s)
    ensures Inv(c, Forgotten(s, keys))
  {
    LessAskedAllOk(c, s.pieceSet, s.active, keys);
  }

  lemma DoChokeKeeps(c: Config, s: State, a: Address)
    requires c.Valid() && Inv(c, s) && a in s.peers
    ensures Inv(c, DoChoke(s, a))
  {
    var p := s.peers[a];
    ForgottenKeeps(c, s, p.ourRequests.Keys);
    assert PeerOk(c, s.pieceSet, p);
    ReplacePeer(c, Forgotten(s, p.ourRequests.Keys), a, p.(peerChoking := true, ourRequests := map[]));
  }

  lemma ClosePeerKeeps(c: Config, s: State, a: Address)
    requires c.Valid() && Inv(c, s) && a in s.peers
    ensures Inv(c, ClosePeer(s, a))
  {
    ForgottenKeeps(c, s, s.peers[a].ourRequests.Keys);
    var peers := s.peers - {a};
    SubsetSize(peers.Keys, s.peers.Keys);
    ReplacePeers(c, Forgotten(s, s.peers[a].ourRequests.Keys), peers);
  }

  // ---- Choking ----

  /** After chokePeers the peers that use an upload slot are exactly the chosen ones. */
  lemma RechokedUploading(peers: map<Address, Peer>, chosen: set<Address>)
    requires chosen <= InterestedPeers(peers)
    ensures Uploading(Rechoked(peers, chosen)) == chosen
    ensures InterestedPeers(Rechoked(peers, chosen)) == InterestedPeers(peers)
  {
  }

  /** The interest flag of one peer may just have changed, so the bound on upload slots is not required. */
  lemma ChokePeersKeeps(c: Config, s: State, s': State)
    requires c.Valid() && Accounting(c.t, s.pieceSet, s.goodPieces, s.left)
    requires ActivesOk(c, s.pieceSet, s.active) && StoreOk(c, s.pieceSet, s.flat, s.boxes)
    requires AllPeersOk(c, s.pieceSet, s.peers)
    requires ChokePeers(s, s')
    ensures Inv(c, s') && s'.peers.Keys == s.peers.Keys
    ensures |Uploading(s'.peers)| == Min(UPLOAD_SLOTS, |InterestedPeers(s'.peers)|)
  {
    var chosen: set<Address> :| chosen <= InterestedPeers(s.peers)
                               && |chosen| == Min(UPLOAD_SLOTS, |InterestedPeers(s.peers)|)
                               && s' == s.(peers := Rechoked(s.peers, chosen));
    RechokedUploading(s.peers, chosen);
    assert s'.peers.Keys == s.peers.Keys;
    forall a | a in s'.peers
      ensures PeerOk(c, s.pieceSet, s'.peers[a])
    {
      assert PeerOk(c, s.pieceSet, s.peers[a]);
      SetChokeKeepsSignals(s.peers[a], a !in chosen);
    }
  }
}
