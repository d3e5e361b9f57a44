/** Reachable states in which something happens, for every configuration: they show that the conditions under which
    the program falls short can be met. */
module SessionWitness {
  import opened Arith
  import opened Bytes
  import opened Geometry
  import opened SessionState
  import opened SessionInvariant
  import opened SessionRun
  import opened SessionSteps
  import opened SessionLimits
  import opened SessionWire
  import Bitsets
  import SessionBlocks

  // ---- One more event ----

  lemma NextReachable(c: Config, s: State, e: Event, s': State)
    requires c.Valid() && Reachable(c, s) && Inv(c, s) && Step(c, s, e, s')
    ensures Reachable(c, s') && Inv(c, s')
  {
    hide Step, Inv, Initial, Reaches;
    var s0, events :| Initial(c, s0) && Reaches(c, s0, events, s);
    OneMoreEvent(c, s0, events, s, e, s');
    StepKeeps(c, s, e, s');
  }

  /** A state that the session can be in, seen from one connected peer. */
  ghost predicate At(c: Config, s: State, a: Address) {
    c.Valid() && Reachable(c, s) && Inv(c, s) && a in s.peers
  }

  lemma AtSound(c: Config, s: State, a: Address)
    requires At(c, s, a)
    ensures Sound(c, s) && a in s.peers && c.Valid() && Inv(c, s)
  {
  }

  lemma NextAt(c: Config, s: State, a: Address, e: Event, s': State)
    requires At(c, s, a) && Step(c, s, e, s') && a in s'.peers
    ensures At(c, s', a) && Sound(c, s')
  {
    hide Step, Inv, Reachable;
    NextReachable(c, s, e, s');
  }

  lemma AtArrives(c: Config, s: State, a: Address, m: seq<byte>)
    requires At(c, s, a) && m != []
    ensures Arrives(c, s, a, m) && Sound(c, s)
  {
  }

  lemma AfterHandled(c: Config, s: State, a: Address, m: seq<byte>, now: int, s': State)
    requires At(c, s, a) && Handled(c, s, a, m, now, Proceed, s') && a in s'.peers
    ensures At(c, s', a)
  {
    hide Handled, Step, Inv, Reachable;
    HandledIsStep(c, s, a, m, now, Proceed, s');
    NextReachable(c, s, Message(a, Some(m), now), s');
  }

  // ---- A request can always be carried out ----

  lemma FirstFree(counts: seq<int>) returns (b: nat)
    requires 0 in counts
    ensures FreeBlock(counts, b)
  {
    var i :| 0 <= i < |counts| && counts[i] == 0;
    b := 0;
    while counts[b] != 0
      invariant b <= i && forall j | 0 <= j < b :: counts[j] != 0
      decreases i - b
    {
      b := b + 1;
    }
  }

  lemma HeldByPeer(c: Config, s: State, a: Address, k: nat)
    requires c.Valid() && Inv(c, s) && a in s.peers && k in s.peers[a].have
    ensures k < c.t.totalPieces && c.t.BlockCount(k) > 0
  {
    assert PeerOk(c, s.pieceSet, s.peers[a]);
    c.t.BlockBounds(k);
  }

  /** Whatever the state, RequestBlock has an outcome. */
  lemma RequestPossible(c: Config, s: State, a: Address, now: int) returns (s': State)
    requires c.Valid() && Inv(c, s) && a in s.peers
    ensures RequestBlock(c, s, a, now, s')
  {
    var p := s.peers[a];
    if k :| k in s.active && k in p.have && 0 in s.active[k].counts {
      var b := FirstFree(s.active[k].counts);
      s' := Requested(c, s, a, k, b, now);
      assert RequestsActive(c, s, a, now, false, s');
    } else if |s.active| >= c.maxActive {
      s' := s;
    } else if k :| Unclaimed(s, p, k) {
      HeldByPeer(c, s, a, k);
      s' := Requested(c, Started(c, s, k), a, k, 0, now);
      assert StartsPiece(c, s, a, now, s');
    } else if k :| k in s.active && k in p.have && !Complete(s.active[k].counts) {
      EndgameFindsBlock(c, s, k);
      var b :| EndgameBlock(s.active[k].counts, b);
      s' := Requested(c, s, a, k, b, now);
      assert RequestsActive(c, s, a, now, true, s');
    } else {
      s' := WithPeer(s, a, SetInterested(p, false));
    }
  }

  // ---- A peer connects ----

  /** A session that has these pieces, and nothing in its store. */
  function Start(c: Config, pieceSet: set<nat>, left: nat): State {
    SessionState.State(pieceSet, |pieceSet|, left, None, map[], map[], Zeros(c.t.totalSize), map[])
  }

  /** A peer can always connect to a session without peers. */
  lemma Joins(c: Config, s: State, a: Address) returns (e: Event, s': State)
    requires Sound(c, s) && s.peers == map[]
    ensures c.Valid() && Inv(c, s) && e.Connect? && Step(c, s, e, s')
    ensures s'.peers.Keys == {a} && s' == s.(peers := s'.peers)
    ensures exists id, greeting :: s'.peers[a] == Send(NewPeer(id), greeting)
  {
    var id, greeting := c.ourId + "x", BitfieldMessage(c, s.pieceSet);
    assert |id| != |c.ourId|;
    e := Connect(a, id, greeting);
    s' := AddPeer(c, s, a, id, greeting);
    assert s'.peers[a] == Send(NewPeer(id), greeting);
  }

  lemma Connected(c: Config, pieceSet: set<nat>, left: nat) returns (s: State, a: Address)
    requires c.Valid() && Accounting(c.t, pieceSet, |pieceSet|, left)
    ensures At(c, s, a) && s.pieceSet == pieceSet && s.active == map[] && s.peers.Keys == {a}
    ensures exists id, greeting :: s.peers[a] == Send(NewPeer(id), greeting)
  {
    hide Accounting, Step;
    var s0 := Start(c, pieceSet, left);
    a := Address("peer");
    assert Initial(c, s0) && Reaches(c, s0, [], s0);
    assert Reachable(c, s0);
    InitialInv(c, s0);
    var e;
    e, s := Joins(c, s0, a);
    NextReachable(c, s0, e, s);
  }

  // ---- A piece is being downloaded ----

  lemma Has(c: Config, s: State, a: Address, k: nat, now: int) returns (s': State)
    requires Sound(c, s) && a in s.peers && k < c.t.totalPieces
    ensures c.Valid() && Inv(c, s) && Step(c, s, Message(a, Some(HaveMessage(k)), now), s')
    ensures s'.pieceSet == s.pieceSet && s'.active == s.active && a in s'.peers
    ensures s'.peers[a].have == s.peers[a].have + {k}
  {
    hide Handled, Inv;
    var m := HaveMessage(k);
    WireField(m, 1, k);
    IsArrival(c, s, a, m);
    HaveHandled(c, s, a, m, now);
    s' := Late(WithPeer(s, a, HasPiece(s, s.peers[a], k)), a);
    HandledIsStep(c, s, a, m, now, Proceed, s');
  }

  ghost predicate AskedAt(p: Peer, key: nat, now: int) {
    key in p.ourRequests && p.ourRequests[key] == now
  }

  lemma ActiveRemembers(c: Config, s: State, a: Address, now: int, endgame: bool, s': State, key: nat)
    requires a in s.peers && RequestsActive(c, s, a, now, endgame, s') && AskedAt(s.peers[a], key, now)
    ensures a in s'.peers && AskedAt(s'.peers[a], key, now)
  {
    var k, b: nat :|
      && k in s.active && k in s.peers[a].have
      && (if endgame then EndgameBlock(s.active[k].counts, b) else FreeBlock(s.active[k].counts, b))
      && s' == Requested(c, s, a, k, b, now);
  }

  lemma StartRemembers(c: Config, s: State, a: Address, now: int, s': State, key: nat)
    requires a in s.peers && StartsPiece(c, s, a, now, s') && AskedAt(s.peers[a], key, now)
    ensures a in s'.peers && AskedAt(s'.peers[a], key, now)
  {
    var k: nat :|
      && Unclaimed(s, s.peers[a], k) && k < c.t.totalPieces
      && c.t.BlockCount(k) > 0
      && s' == Requested(c, Started(c, s, k), a, k, 0, now);
  }

  /** A further request does not make a request forgotten. */
  lemma Remembered(c: Config, s: State, a: Address, now: int, s': State, key: nat)
    requires a in s.peers && RequestBlock(c, s, a, now, s') && AskedAt(s.peers[a], key, now)
    ensures a in s'.peers && AskedAt(s'.peers[a], key, now)
  {
    hide RequestsActive, StartsPiece;
    var p := s.peers[a];
    if RequestsActive(c, s, a, now, false, s') {
      ActiveRemembers(c, s, a, now, false, s', key);
    } else if |s.active| >= c.maxActive {
    } else if exists k :: Unclaimed(s, p, k) {
      StartRemembers(c, s, a, now, s', key);
    } else if exists k :: k in s.active && k in p.have && !Complete(s.active[k].counts) {
      ActiveRemembers(c, s, a, now, true, s', key);
    }
  }

  lemma StillMissing(c: Config, s: State, a: Address, now: int, s': State, k: nat, b: nat)
    requires c.Valid() && Inv(c, s) && Inv(c, s') && a in s.peers && RequestBlock(c, s, a, now, s')
    requires k in s.active && b < |s.active[k].counts| && s.active[k].counts[b] >= 0
    ensures k in s'.active && b < |s'.active[k].counts| && s'.active[k].counts[b] >= 0
  {
    SessionBlocks.RequestBlockKept(c, s, a, now, s');
    assert SessionBlocks.SameBlocks(s.active[k], s'.active[k]);
    assert ActiveOk(c, s'.pieceSet, k, s'.active[k]);
  }

  lemma ActiveSame(c: Config, s: State, a: Address, now: int, endgame: bool, s': State)
    requires a in s.peers && RequestsActive(c, s, a, now, endgame, s')
    ensures a in s'.peers && s'.active.Keys == s.active.Keys && s'.peers[a].have == s.peers[a].have
  {
    var k, b: nat :|
      && k in s.active && k in s.peers[a].have
      && (if endgame then EndgameBlock(s.active[k].counts, b) else FreeBlock(s.active[k].counts, b))
      && s' == Requested(c, s, a, k, b, now);
  }

  /** A peer whose pieces are all here or being downloaded lets no piece start. */
  lemma NoNewPiece(c: Config, s: State, a: Address, now: int, s': State)
    requires a in s.peers && RequestBlock(c, s, a, now, s') && s.peers[a].have <= s.pieceSet + s.active.Keys
    ensures a in s'.peers && s'.active.Keys == s.active.Keys && s'.peers[a].have == s.peers[a].have
  {
    hide RequestsActive, StartsPiece;
    var p := s.peers[a];
    if RequestsActive(c, s, a, now, false, s') {
      ActiveSame(c, s, a, now, false, s');
    } else if |s.active| >= c.maxActive {
    } else if exists k :: k in s.active && k in p.have && !Complete(s.active[k].counts) {
      ActiveSame(c, s, a, now, true, s');
    }
  }

  /** The peer was asked for each missing block of the piece that anyone was asked for. */
  ghost predicate AllAsked(s: State, a: Address, k: nat) {
    && a in s.peers && k in s.active
    && forall b: nat | b < |s.active[k].counts| && s.active[k].counts[b] > 0 ::
         Pack(k, b * STANDARD_BLOCK_LENGTH) in s.peers[a].ourRequests
  }

  ghost predicate SomeAsked(counts: seq<int>) {
    exists b: nat :: b < |counts| && counts[b] > 0
  }

  lemma ActiveAsked(c: Config, s: State, a: Address, now: int, endgame: bool, s': State, k: nat)
    requires a in s.peers && RequestsActive(c, s, a, now, endgame, s') && s.active.Keys == {k} && AllAsked(s, a, k)
    ensures AllAsked(s', a, k) && SomeAsked(s'.active[k].counts)
  {
    hide Pack, RequestMessage;
    var l, b: nat :|
      && l in s.active && l in s.peers[a].have
      && (if endgame then EndgameBlock(s.active[l].counts, b) else FreeBlock(s.active[l].counts, b))
      && s' == Requested(c, s, a, l, b, now);
    assert s'.active[k].counts[b] > 0;
  }

  /** While the only piece that is being downloaded is not complete, a request to a peer that has it leaves a block for
      which this peer was asked. */
  lemma NextAsked(c: Config, s: State, a: Address, now: int, s': State, k: nat)
    requires a in s.peers && RequestBlock(c, s, a, now, s') && s.active.Keys == {k} && AllAsked(s, a, k)
    requires ActiveOk(c, s.pieceSet, k, s.active[k])
    requires k in s.peers[a].have && s.peers[a].have <= s.pieceSet + {k}
    ensures AllAsked(s', a, k) && SomeAsked(s'.active[k].counts)
  {
    hide RequestsActive, StartsPiece;
    var p := s.peers[a];
    if RequestsActive(c, s, a, now, false, s') {
      ActiveAsked(c, s, a, now, false, s', k);
    } else if |s.active| >= c.maxActive {
      var b: nat :| b < |s.active[k].counts| && s.active[k].counts[b] != -1;
      assert s.active[k].counts[b] > 0;
    } else {
      assert !exists l :: Unclaimed(s, p, l);
      ActiveAsked(c, s, a, now, true, s', k);
    }
  }

  lemma FirstAsked(c: Config, s: State, a: Address, k: nat, now: int)
    requires a in s.peers && c.t.BlockCount(k) > 0
    ensures AllAsked(Requested(c, Started(c, s, k), a, k, 0, now), a, k)
  {
    hide Pack, RequestMessage, Torrent.BlockCount;
  }

  /** The peer has the piece, and nothing is being downloaded. */
  lemma FirstRequest(c: Config, s: State, a: Address, k: nat, now: int) returns (s': State)
    requires c.Valid() && Inv(c, s) && a in s.peers && s.active == map[] && k in s.peers[a].have && k !in s.pieceSet
    ensures RequestBlock(c, s, a, now, s') && a in s'.peers
    ensures s'.active.Keys == {k} && |s'.active[k].counts| > 0 && s'.active[k].counts[0] == 1
    ensures AskedAt(s'.peers[a], Pack(k, 0), now) && s'.peers[a].have == s.peers[a].have && AllAsked(s', a, k)
  {
    hide AllAsked, RequestMessage, Torrent.BlockCount, Torrent.PieceLength, Inv, Pack, RequestsActive;
    HeldByPeer(c, s, a, k);
    s' := Requested(c, Started(c, s, k), a, k, 0, now);
    FirstAsked(c, s, a, k, now);
    assert Unclaimed(s, s.peers[a], k);
    assert StartsPiece(c, s, a, now, s');
  }

  lemma IsActiveOk(c: Config, s: State, k: nat)
    requires c.Valid() && Inv(c, s) && k in s.active
    ensures ActiveOk(c, s.pieceSet, k, s.active[k])
  {
  }

  lemma Unchoked(c: Config, s: State, a: Address, k: nat, now: int) returns (s': State)
    requires Sound(c, s) && a in s.peers && s.active == map[] && k in s.peers[a].have && k !in s.pieceSet
    ensures c.Valid() && Inv(c, s) && Step(c, s, Message(a, Some([UNCHOKE]), now), s')
    ensures a in s'.peers && k in s'.active && AskedAt(s'.peers[a], Pack(k, 0), now) && s'.pieceSet == s.pieceSet
    ensures |s'.active[k].counts| > 0 && s'.active[k].counts[0] >= 0
    ensures s.peers[a].have <= s.pieceSet + {k} ==>
              && s'.active.Keys == {k} && s'.peers[a].have == s.peers[a].have
              && AllAsked(s', a, k) && SomeAsked(s'.active[k].counts)
  {
    hide Handled, Inv, RequestBlock, Pack;
    IsArrival(c, s, a, [UNCHOKE]);
    var s0 := WithPeer(s, a, s.peers[a].(peerChoking := false));
    UnchokedSound(c, s, a);
    SoundInv(c, s0);
    var s1 := FirstRequest(c, s0, a, k, now);
    RequestsBlock(c, s0, a, now, s1);
    SoundInv(c, s1);
    var s2 := RequestPossible(c, s1, a, now);
    RequestsBlock(c, s1, a, now, s2);
    SoundInv(c, s2);
    Remembered(c, s1, a, now, s2, Pack(k, 0));
    StillMissing(c, s1, a, now, s2, k, 0);
    RequestBlockFrame(c, s0, a, now, s1);
    RequestBlockFrame(c, s1, a, now, s2);
    if s.peers[a].have <= s.pieceSet + {k} {
      NoNewPiece(c, s1, a, now, s2);
      IsActiveOk(c, s1, k);
      NextAsked(c, s1, a, now, s2, k);
    }
    UnchokeHandled(c, s, a, [UNCHOKE], now, s1, s2);
    s' := Late(s2, a);
    HandledIsStep(c, s, a, [UNCHOKE], now, Proceed, s');
  }

  lemma NothingAccounted(c: Config)
    requires c.Valid()
    ensures Accounting(c.t, {}, 0, c.t.totalSize)
  {
    assert c.t.Missing({}) == c.t.AllPieces();
    c.t.SumTotal();
  }

  /** For every configuration and every piece there is a reachable state in which the piece is being downloaded and its
      first block was asked for at any given time. */
  lemma Downloading(c: Config, k: nat, now: int) returns (s: State, a: Address)
    requires c.Valid() && k < c.t.totalPieces
    ensures At(c, s, a) && k in s.active && AskedAt(s.peers[a], Pack(k, 0), now)
    ensures |s.active[k].counts| > 0 && s.active[k].counts[0] >= 0
  {
    hide *;
    NothingAccounted(c);
    var s1;
    s1, a := Connected(c, {}, c.t.totalSize);
    AtSound(c, s1, a);
    var s2 := Has(c, s1, a, k, now);
    NextAt(c, s1, a, Message(a, Some(HaveMessage(k)), now), s2);
    s := Unchoked(c, s2, a, k, now);
    NextAt(c, s2, a, Message(a, Some([UNCHOKE]), now), s);
  }

  // ---- The same by a bitfield ----

  /** A new peer tells all its pieces at once. */
  lemma Tells(c: Config, s: State, a: Address, pieces: set<nat>, now: int) returns (s': State)
    requires Sound(c, s) && a in s.peers && s.peers[a].canReceiveBitfield && pieces <= c.t.AllPieces()
    ensures c.Valid() && Inv(c, s) && Step(c, s, Message(a, Some(BitfieldMessage(c, pieces)), now), s')
    ensures s'.pieceSet == s.pieceSet && s'.active == s.active && a in s'.peers && s'.peers[a].have == pieces
  {
    hide Handled, Inv, Bitsets.Encode, Bitsets.Decode;
    var m := BitfieldMessage(c, pieces);
    Bitsets.DecodeEncode(c.t.totalPieces, pieces);
    assert m[1..] == Bitsets.Encode(c.t.totalPieces, pieces);
    IsArrival(c, s, a, m);
    BitfieldHandled(c, s, a, m, now, pieces);
    s' := Late(WithPeer(s, a, HasPieces(s, s.peers[a], pieces)), a);
    HandledIsStep(c, s, a, m, now, Proceed, s');
  }

  /** From a new connection, a bitfield and an unchoke lead to the download of any of the pieces that the peer has: here
      it has exactly these, and the first block of piece k was asked for. */
  lemma DownloadingByBitfield(c: Config, pieces: set<nat>, k: nat, now: int) returns (s: State, a: Address)
    requires c.Valid() && pieces <= c.t.AllPieces() && k in pieces
    ensures At(c, s, a) && k in s.active && AskedAt(s.peers[a], Pack(k, 0), now)
  {
    hide *;
    NothingAccounted(c);
    var s1;
    s1, a := Connected(c, {}, c.t.totalSize);
    AtSound(c, s1, a);
    WelcomesBitfield(s1, a);
    var s2 := Tells(c, s1, a, pieces, now);
    NextAt(c, s1, a, Message(a, Some(BitfieldMessage(c, pieces)), now), s2);
    s := Unchoked(c, s2, a, k, now);
    NextAt(c, s2, a, Message(a, Some([UNCHOKE]), now), s);
  }

  lemma WelcomesBitfield(s: State, a: Address)
    requires a in s.peers && exists id, greeting :: s.peers[a] == Send(NewPeer(id), greeting)
    ensures s.peers[a].canReceiveBitfield
  {
  }
}
