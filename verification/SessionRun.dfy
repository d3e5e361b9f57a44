/** Whole runs of a session: the events of the main loop, and what holds in every reachable state. */
module SessionRun {
  import opened Arith
  import opened Bytes
  import opened Geometry
  import opened SessionState
  import opened SessionInvariant
  import Bitsets

  /** The events of the main loop that change the state modelled here; `now` is the time at which they happen. */
  datatype Event =
    | ChokeTick
    | Connect(address: Address, id: string, greeting: seq<byte>)
    | Message(address: Address, message: Option<seq<byte>>, now: int)  // None: the connection has ended
    | KeepAlive(address: Address, now: int)
    | Expire(address: Address)                                         // nothing read for three minutes

  /** A new peer is greeted by an extension handshake or by our bitfield. */
  ghost predicate GreetingOk(c: Config, s: State, greeting: seq<byte>) {
    greeting == BitfieldMessage(c, s.pieceSet) || (|greeting| >= 2 && greeting[0] == EXTENSION)
  }

  ghost predicate MessageStep(c: Config, s: State, a: Address, m: seq<byte>, now: int, s': State)
    requires c.Valid() && Inv(c, s) && a in s.peers
  {
    if m == [] then s' == s
    else if CheckMessage(c, s, s.peers[a], m).Some? then s' == ClosePeer(s, a)
    else !Crashes(c, s, s.peers[a], m) && Effect(c, s, a, m, now, s')
  }

  ghost predicate Step(c: Config, s: State, e: Event, s': State)
    requires c.Valid() && Inv(c, s)
  {
    match e
    case ChokeTick => ChokePeers(s, s')
    case Connect(a, id, greeting) => GreetingOk(c, s, greeting) && s' == AddPeer(c, s, a, id, greeting)
    case Message(a, m, now) =>
      a in s.peers && (if m.None? then s' == ClosePeer(s, a) else MessageStep(c, s, a, m.value, now, s'))
    case KeepAlive(a, now) =>
      a in s.peers && s' == WithPeer(Forgotten(s, TimedOut(s.peers[a], now)), a, Send(s.peers[a], []))
    case Expire(a) => a in s.peers && s' == ClosePeer(s, a)
  }

  // ---- Every step keeps the invariant ----

  lemma LateKeeps(c: Config, s: State, a: Address)
    requires c.Valid() && Inv(c, s) && a in s.peers
    ensures Inv(c, Late(s, a))
  {
    assert PeerOk(c, s.pieceSet, s.peers[a]);
    ReplacePeer(c, s, a, s.peers[a].(canReceiveBitfield := false));
  }

  lemma UnchokeKeeps(c: Config, s: State, a: Address, now: int, s': State)
    requires c.Valid() && Inv(c, s) && a in s.peers && Unchoke(c, s, a, now, s')
    ensures Inv(c, s')
  {
    var s0 := WithPeer(s, a, s.peers[a].(peerChoking := false));
    var s1, s2 :| RequestBlock(c, s0, a, now, s1) && a in s1.peers
                  && RequestBlock(c, s1, a, now, s2) && a in s2.peers && s' == Late(s2, a);
    assert PeerOk(c, s.pieceSet, s.peers[a]);
    ReplacePeer(c, s, a, s.peers[a].(peerChoking := false));
    RequestBlockKeeps(c, s0, a, now, s1);
    RequestBlockKeeps(c, s1, a, now, s2);
    LateKeeps(c, s2, a);
  }

  lemma PeerInterestKeeps(c: Config, s: State, a: Address, interested: bool, s': State)
    requires c.Valid() && Inv(c, s) && a in s.peers && PeerInterest(s, a, interested, s')
    ensures Inv(c, s')
    ensures |Uploading(s'.peers)| == Min(UPLOAD_SLOTS, |InterestedPeers(s'.peers)|)
  {
    var p := s.peers[a].(peerInterested := interested);
    var s0 := WithPeer(s, a, p);
    var s1 :| ChokePeers(s0, s1) && a in s1.peers && s' == Late(s1, a);
    assert PeerOk(c, s.pieceSet, s.peers[a]);
    PutPeerOk(c, s.pieceSet, s.peers, a, p);
    ChokePeersKeeps(c, s0, s1);
    LateKeeps(c, s1, a);
    PutPeerSlot(s1.peers, a, s1.peers[a].(canReceiveBitfield := false));
  }

  lemma HasPieceOk(c: Config, s: State, p: Peer, n: nat)
    requires PeerOk(c, s.pieceSet, p) && n < c.t.totalPieces
    ensures PeerOk(c, s.pieceSet, HasPiece(s, p, n)) && SameSlot(p, HasPiece(s, p, n))
  {
    hide Alternates, Signal, KeyOk;
    var q := p.(have := p.have + {n});
    assert forall i | i in q.have && i !in s.pieceSet && i != n :: i in p.have;
    SetInterestedKeepsSignals(q, true);
  }

  lemma HasPieceKeeps(c: Config, s: State, a: Address, n: nat)
    requires c.Valid() && Inv(c, s) && a in s.peers && n < c.t.totalPieces
    ensures Inv(c, WithPeer(s, a, HasPiece(s, s.peers[a], n)))
  {
    hide PeerOk, HasPiece, Inv;
    KnownPeerOk(c, s, a);
    HasPieceOk(c, s, s.peers[a], n);
    ReplacePeer(c, s, a, HasPiece(s, s.peers[a], n));
  }

  lemma KnownPeerOk(c: Config, s: State, a: Address)
    requires c.Valid() && Inv(c, s) && a in s.peers
    ensures PeerOk(c, s.pieceSet, s.peers[a])
  {
  }

  lemma HasPiecesOk(c: Config, s: State, p: Peer, pieces: set<nat>)
    requires PeerOk(c, s.pieceSet, p) && pieces <= c.t.AllPieces()
    ensures PeerOk(c, s.pieceSet, HasPieces(s, p, pieces)) && SameSlot(p, HasPieces(s, p, pieces))
  {
    hide Alternates, Signal, KeyOk;
    var q := p.(have := pieces);
    SetInterestedKeepsSignals(q, Interesting(s.pieceSet, q));
  }

  lemma HasPiecesKeeps(c: Config, s: State, a: Address, pieces: set<nat>)
    requires c.Valid() && Inv(c, s) && a in s.peers && pieces <= c.t.AllPieces()
    ensures Inv(c, WithPeer(s, a, HasPieces(s, s.peers[a], pieces)))
  {
    hide PeerOk, HasPieces, Inv;
    KnownPeerOk(c, s, a);
    HasPiecesOk(c, s, s.peers[a], pieces);
    ReplacePeer(c, s, a, HasPieces(s, s.peers[a], pieces));
  }

  lemma SendKeeps(c: Config, s: State, a: Address, message: seq<byte>)
    requires c.Valid() && Inv(c, s) && a in s.peers && |message| != 1
    ensures Inv(c, WithPeer(s, a, Send(s.peers[a], message)))
  {
    assert PeerOk(c, s.pieceSet, s.peers[a]);
    SendKeepsSignals(s.peers[a], message);
    ReplacePeer(c, s, a, Send(s.peers[a], message));
  }

  lemma BoxesAfterRead(c: Config, pieceSet: set<nat>, flat: seq<byte>, boxes: map<nat, seq<byte>>,
                       piece: nat, after: map<nat, seq<byte>>)
    requires c.Valid() && StoreOk(c, pieceSet, flat, boxes) && piece in pieceSet
    requires CacheKeeps(c, after, boxes[piece := c.t.Slice(flat, piece)])
    ensures StoreOk(c, pieceSet, flat, after)
  {
  }

  lemma SendRequestKeeps(c: Config, s: State, a: Address, piece: nat, begin: nat, length: nat, s': State)
    requires c.Valid() && Inv(c, s) && a in s.peers && piece < c.t.totalPieces && piece in s.pieceSet
    requires SendRequest(c, s, a, piece, begin, length, s')
    ensures Inv(c, s')
  {
    if !s.peers[a].amChoking {
      var data := PaddedRead(s.flat, c.t.Start(piece) + begin, length);
      SendKeeps(c, s, a, PieceMessage(piece, begin, data));
      BoxesAfterRead(c, s.pieceSet, s.flat, s.boxes, piece, s'.boxes);
    }
  }

  lemma ReceivePieceKeeps(c: Config, s: State, a: Address, piece: nat, begin: nat, data: seq<byte>, now: int, s': State)
    requires c.Valid() && Inv(c, s) && a in s.peers && piece in s.active && piece < c.t.totalPieces
    requires |s.active[piece].buffer| == c.t.PieceLength(piece) && begin <= c.t.PieceLength(piece)
    requires begin / STANDARD_BLOCK_LENGTH < |s.active[piece].counts|
    requires ReceivePiece(c, s, a, piece, begin, data, now, s')
    ensures Inv(c, s')
  {
    var s0 := Copied(s, piece, begin, data);
    var s1, s2 :| RecordBlock(c, s0, a, piece, begin, s1) && a in s1.peers
                  && RequestBlock(c, s1, a, now, s2) && a in s2.peers && s' == Late(s2, a);
    CopiedKeeps(c, s, piece, begin, data);
    RecordBlockKeeps(c, s0, a, piece, begin, s1);
    RequestBlockKeeps(c, s1, a, now, s2);
    LateKeeps(c, s2, a);
  }

  /** A block that passes the checks and does not crash lies in the buffer of an active piece. */
  lemma AcceptedBlock(c: Config, s: State, p: Peer, m: seq<byte>)
    requires c.Valid() && Inv(c, s) && m != [] && m[0] == PIECE
    requires CheckMessage(c, s, p, m) == None && !Crashes(c, s, p, m)
    requires |m| >= 9 ==> Field(m, 1) !in s.pieceSet
    ensures |m| >= 9
    ensures var piece, begin := Field(m, 1), Field(m, 5);
            && piece in s.active && piece < c.t.totalPieces && ActiveOk(c, s.pieceSet, piece, s.active[piece])
            && begin <= c.t.PieceLength(piece)
            && begin / STANDARD_BLOCK_LENGTH < c.t.BlockCount(piece)
  {
  }

  /** Only a PIECE message for a piece we lack can change the store and the set of pieces. */
  ghost predicate Receives(s: State, m: seq<byte>)
    requires m != []
  {
    m[0] == PIECE && |m| >= 9 && Field(m, 1) !in s.pieceSet
  }

  lemma PieceEffectKeeps(c: Config, s: State, a: Address, m: seq<byte>, now: int, s': State)
    requires c.Valid() && Inv(c, s) && a in s.peers && m != [] && Receives(s, m)
    requires CheckMessage(c, s, s.peers[a], m) == None && !Crashes(c, s, s.peers[a], m)
    requires Effect(c, s, a, m, now, s')
    ensures Inv(c, s')
  {
    AcceptedBlock(c, s, s.peers[a], m);
    ReceivePieceKeeps(c, s, a, Field(m, 1), Field(m, 5), m[9..], now, s');
  }

  lemma ControlEffectKeeps(c: Config, s: State, a: Address, m: seq<byte>, now: int, s': State)
    requires c.Valid() && Inv(c, s) && a in s.peers && m != [] && m[0] <= BITFIELD
    requires CheckMessage(c, s, s.peers[a], m) == None && !Crashes(c, s, s.peers[a], m)
    requires Effect(c, s, a, m, now, s')
    ensures Inv(c, s')
  {
    var p := s.peers[a];
    if m[0] == CHOKE {
      DoChokeKeeps(c, s, a);
      LateKeeps(c, DoChoke(s, a), a);
    } else if m[0] == UNCHOKE {
      UnchokeKeeps(c, s, a, now, s');
    } else if m[0] == INTERESTED {
      PeerInterestKeeps(c, s, a, true, s');
    } else if m[0] == NOT_INTERESTED {
      PeerInterestKeeps(c, s, a, false, s');
    } else if m[0] == HAVE {
      HasPieceKeeps(c, s, a, Field(m, 1));
      LateKeeps(c, WithPeer(s, a, HasPiece(s, p, Field(m, 1))), a);
    } else {
      var pieces := Bitsets.Decode(c.t.totalPieces, m[1..]).value;
      HasPiecesKeeps(c, s, a, pieces);
      LateKeeps(c, WithPeer(s, a, HasPieces(s, p, pieces)), a);
    }
  }

  lemma EffectKeeps(c: Config, s: State, a: Address, m: seq<byte>, now: int, s': State)
    requires c.Valid() && Inv(c, s) && a in s.peers && m != []
    requires CheckMessage(c, s, s.peers[a], m) == None && !Crashes(c, s, s.peers[a], m)
    requires Effect(c, s, a, m, now, s')
    ensures Inv(c, s')
  {
    if m[0] <= BITFIELD {
      ControlEffectKeeps(c, s, a, m, now, s');
    } else if m[0] == REQUEST {
      SendRequestKeeps(c, s, a, Field(m, 1), Field(m, 5), Field(m, 9), s');
    } else if Receives(s, m) {
      PieceEffectKeeps(c, s, a, m, now, s');
    } else if m[0] == EXTENSION {
      SendKeeps(c, s, a, BitfieldMessage(c, s.pieceSet));
    } else {
      LateKeeps(c, s, a);
    }
  }

  lemma UnchokeFrame(c: Config, s: State, a: Address, now: int, s': State)
    requires a in s.peers && Unchoke(c, s, a, now, s')
    ensures s'.flat == s.flat && s'.pieceSet == s.pieceSet && s'.saved == s.saved
  {
    var s0 := WithPeer(s, a, s.peers[a].(peerChoking := false));
    var s1, s2 :| RequestBlock(c, s0, a, now, s1) && a in s1.peers
                  && RequestBlock(c, s1, a, now, s2) && a in s2.peers && s' == Late(s2, a);
    RequestBlockFrame(c, s0, a, now, s1);
    RequestBlockFrame(c, s1, a, now, s2);
  }

  /** The messages that neither choke us nor unchoke us nor bring a block touch no active piece. */
  lemma OtherEffects(c: Config, s: State, a: Address, m: seq<byte>, now: int, s': State)
    requires c.Valid() && Inv(c, s) && a in s.peers && m != []
    requires CheckMessage(c, s, s.peers[a], m) == None && !Crashes(c, s, s.peers[a], m)
    requires Effect(c, s, a, m, now, s') && !Receives(s, m) && m[0] != CHOKE && m[0] != UNCHOKE
    ensures s'.active == s.active && s'.flat == s.flat && s'.pieceSet == s.pieceSet && s'.saved == s.saved
  {
  }

  lemma EffectFrame(c: Config, s: State, a: Address, m: seq<byte>, now: int, s': State)
    requires c.Valid() && Inv(c, s) && a in s.peers && m != []
    requires CheckMessage(c, s, s.peers[a], m) == None && !Crashes(c, s, s.peers[a], m)
    requires Effect(c, s, a, m, now, s') && !Receives(s, m)
    ensures s'.flat == s.flat && s'.pieceSet == s.pieceSet && s'.saved == s.saved
  {
    if m[0] == UNCHOKE {
      UnchokeFrame(c, s, a, now, s');
    } else if m[0] != CHOKE {
      OtherEffects(c, s, a, m, now, s');
    }
  }

  lemma KeepAliveKeeps(c: Config, s: State, a: Address, now: int)
    requires c.Valid() && Inv(c, s) && a in s.peers
    ensures Inv(c, WithPeer(Forgotten(s, TimedOut(s.peers[a], now)), a, Send(s.peers[a], [])))
  {
    ForgottenKeeps(c, s, TimedOut(s.peers[a], now));
    SendKeeps(c, Forgotten(s, TimedOut(s.peers[a], now)), a, []);
  }

  lemma NewPeerOk(c: Config, pieceSet: set<nat>, id: string)
    ensures PeerOk(c, pieceSet, NewPeer(id))
  {
  }

  lemma AddPeerKeeps(c: Config, s: State, a: Address, id: string, greeting: seq<byte>)
    requires c.Valid() && Inv(c, s) && GreetingOk(c, s, greeting)
    ensures Inv(c, AddPeer(c, s, a, id, greeting))
  {
    if AddPeer(c, s, a, id, greeting) != s {
      var p := Send(NewPeer(id), greeting);
      NewPeerOk(c, s.pieceSet, id);
      SendKeepsSignals(NewPeer(id), greeting);
      PutPeerOk(c, s.pieceSet, s.peers, a, p);
      PutPeerNoSlot(s.peers, a, p);
      ReplacePeers(c, s, s.peers[a := p]);
    }
  }

  lemma StepKeeps(c: Config, s: State, e: Event, s': State)
    requires c.Valid() && Inv(c, s) && Step(c, s, e, s')
    ensures Inv(c, s')
  {
    match e
    case ChokeTick => ChokePeersKeeps(c, s, s');
    case Connect(a, id, greeting) => AddPeerKeeps(c, s, a, id, greeting);
    case Message(a, m, now) =>
      if m.None? || (m.value != [] && CheckMessage(c, s, s.peers[a], m.value).Some?) {
        ClosePeerKeeps(c, s, a);
      } else if m.value != [] {
        EffectKeeps(c, s, a, m.value, now, s');
      }
    case KeepAlive(a, now) => KeepAliveKeeps(c, s, a, now);
    case Expire(a) => ClosePeerKeeps(c, s, a);
  }

  // ---- Runs ----

  /** The state after `load`, in which pieces may be present but nothing else has happened. */
  ghost predicate Initial(c: Config, s: State)
    requires c.Valid()
  {
    && Accounting(c.t, s.pieceSet, s.goodPieces, s.left)
    && |s.flat| == c.t.totalSize
    && s.saved == None && s.active == map[] && s.peers == map[] && s.boxes == map[]
  }

  lemma InitialInv(c: Config, s: State)
    requires c.Valid() && Initial(c, s)
    ensures Inv(c, s)
  {
    assert Uploading(s.peers) == {};
  }

  ghost predicate Reaches(c: Config, s: State, events: seq<Event>, s': State)
    requires c.Valid()
    decreases |events|
  {
    if events == [] then s == s'
    else exists s1 :: Inv(c, s) && Step(c, s, events[0], s1) && Reaches(c, s1, events[1..], s')
  }

  lemma {:induction false} ReachesOn(c: Config, s: State, events: seq<Event>, s1: State, more: seq<Event>, s2: State)
    requires c.Valid() && Reaches(c, s, events, s1) && Reaches(c, s1, more, s2)
    ensures Reaches(c, s, events + more, s2)
    decreases |events|
  {
    hide Step, Inv;
    if events == [] {
      assert events + more == more;
    } else {
      var next :| Inv(c, s) && Step(c, s, events[0], next) && Reaches(c, next, events[1..], s1);
      ReachesOn(c, next, events[1..], s1, more, s2);
      assert (events + more)[1..] == events[1..] + more;
    }
  }

  lemma OneMoreEvent(c: Config, s: State, events: seq<Event>, s1: State, e: Event, s2: State)
    requires c.Valid() && Reaches(c, s, events, s1) && Inv(c, s1) && Step(c, s1, e, s2)
    ensures Reaches(c, s, events + [e], s2)
  {
    hide Step, Inv;
    assert ([e])[1..] == [] && Reaches(c, s2, [], s2);
    ReachesOn(c, s, events, s1, [e], s2);
  }

  /** In every state that any events lead to from a loaded session, the invariant holds. */
  lemma {:induction false} RunKeeps(c: Config, s: State, events: seq<Event>, s': State)
    requires c.Valid() && Inv(c, s) && Reaches(c, s, events, s')
    ensures Inv(c, s')
    decreases |events|
  {
    if events != [] {
      var s1 :| Step(c, s, events[0], s1) && Reaches(c, s1, events[1..], s');
      StepKeeps(c, s, events[0], s1);
      RunKeeps(c, s1, events[1..], s');
    }
  }
}
