/** An honest swarm can always bring a download to its end: the program never gets into a state from which true blocks,
    asked for or not, do not lead on to the whole content. */
module SessionFinish {
  import opened Arith
  import opened Bytes
  import opened Geometry
  import opened SessionState
  import opened SessionInvariant
  import opened SessionRun
  import opened SessionSteps
  import opened SessionBlocks
  import opened SessionWitness
  import opened SessionWire
  import SessionMessages
  import SessionTheorems

  // ---- Honest continuations ----

  ghost predicate AllHonest(c: Config, truth: seq<byte>, events: seq<Event>) {
    forall e | e in events :: HonestEvent(c, truth, e)
  }

  /** A block only comes from a peer that was sent a REQUEST for exactly this block, which was not cancelled since. */
  ghost predicate Answers(c: Config, s: State, e: Event) {
    e.Message? && e.message.Some? && |e.message.value| >= 9 && e.message.value[0] == PIECE ==>
      var m := e.message.value;
      && e.address in s.peers && SessionMessages.StillAsked(c, s.peers[e.address].sent, Field(m, 1), Field(m, 5))
      && |m| - 9 == BlockSize(c, Field(m, 1), Field(m, 5))
  }

  /** An honest run; in a run by answers no block comes unasked. */
  ghost predicate Goes(c: Config, truth: seq<byte>, byAnswers: bool, s: State, events: seq<Event>, s': State)
    requires c.Valid()
    decreases |events|
  {
    if events == [] then s == s'
    else
      && HonestEvent(c, truth, events[0]) && (byAnswers ==> Answers(c, s, events[0]))
      && exists s1 :: Inv(c, s) && Step(c, s, events[0], s1) && Goes(c, truth, byAnswers, s1, events[1..], s')
  }

  ghost predicate Leads(c: Config, truth: seq<byte>, byAnswers: bool, s: State, s': State)
    requires c.Valid()
  {
    exists events :: Goes(c, truth, byAnswers, s, events, s')
  }

  lemma Stays(c: Config, truth: seq<byte>, byAnswers: bool, s: State)
    requires c.Valid()
    ensures Leads(c, truth, byAnswers, s, s)
  {
    assert Goes(c, truth, byAnswers, s, [], s);
  }

  lemma {:induction false} GoesOn(c: Config, truth: seq<byte>, byAnswers: bool, s: State, events: seq<Event>, s1: State,
                                  more: seq<Event>, s2: State)
    requires c.Valid() && Goes(c, truth, byAnswers, s, events, s1) && Goes(c, truth, byAnswers, s1, more, s2)
    ensures Goes(c, truth, byAnswers, s, events + more, s2)
    decreases |events|
  {
    hide Step, Inv, HonestEvent, Answers;
    if events == [] {
      assert events + more == more;
    } else {
      var next :| Inv(c, s) && Step(c, s, events[0], next) && Goes(c, truth, byAnswers, next, events[1..], s1);
      GoesOn(c, truth, byAnswers, next, events[1..], s1, more, s2);
      assert (events + more)[1..] == events[1..] + more;
    }
  }

  lemma LeadsOn(c: Config, truth: seq<byte>, byAnswers: bool, s: State, s1: State, s2: State)
    requires c.Valid() && Leads(c, truth, byAnswers, s, s1) && Leads(c, truth, byAnswers, s1, s2)
    ensures Leads(c, truth, byAnswers, s, s2)
  {
    hide Goes;
    var events :| Goes(c, truth, byAnswers, s, events, s1);
    var more :| Goes(c, truth, byAnswers, s1, more, s2);
    GoesOn(c, truth, byAnswers, s, events, s1, more, s2);
  }

  /** A run by answers is an honest run, which is a run. */
  lemma {:induction false} GoesReaches(c: Config, truth: seq<byte>, byAnswers: bool, s: State, events: seq<Event>,
                                       s': State)
    requires c.Valid() && Goes(c, truth, byAnswers, s, events, s')
    ensures AllHonest(c, truth, events) && Reaches(c, s, events, s') && Goes(c, truth, false, s, events, s')
    decreases |events|
  {
    hide Step, Inv, HonestEvent, Answers;
    if events != [] {
      var s1 :| Inv(c, s) && Step(c, s, events[0], s1) && Goes(c, truth, byAnswers, s1, events[1..], s');
      GoesReaches(c, truth, byAnswers, s1, events[1..], s');
    }
  }

  lemma LeadsAnyway(c: Config, truth: seq<byte>, s: State, s': State)
    requires c.Valid() && Leads(c, truth, true, s, s')
    ensures Leads(c, truth, false, s, s')
  {
    hide Goes;
    var events :| Goes(c, truth, true, s, events, s');
    GoesReaches(c, truth, true, s, events, s');
  }

  /** What holds all along an honest run. */
  ghost predicate Working(c: Config, truth: seq<byte>, s: State) {
    && c.Valid() && Aligned(c) && TrueContent(c, truth)
    && Inv(c, s) && AllRight(c, truth, s.active)
  }

  lemma Moves(c: Config, truth: seq<byte>, byAnswers: bool, s: State, e: Event, s': State)
    requires Working(c, truth, s) && Step(c, s, e, s') && HonestEvent(c, truth, e) && (byAnswers ==> Answers(c, s, e))
    ensures Working(c, truth, s') && Leads(c, truth, byAnswers, s, s')
    ensures SessionMessages.SentTrue(c, s) ==> SessionMessages.SentTrue(c, s')
  {
    hide Step, Inv, AllRight, HonestEvent, Answers, Aligned, TrueContent, SessionMessages.SentTrue;
    if SessionMessages.SentTrue(c, s) {
      SessionMessages.StepTrue(c, s, e, s');
    }
    StepKeeps(c, s, e, s');
    TrueSize(c, truth);
    HonestActives(c, truth, s, e, s');
    assert ([e])[1..] == [] && Goes(c, truth, byAnswers, s', [], s');
    assert Goes(c, truth, byAnswers, s, [e], s');
  }

  lemma TrueSize(c: Config, truth: seq<byte>)
    requires c.Valid() && TrueContent(c, truth)
    ensures |truth| == c.t.totalSize
  {
  }

  // ---- Peers leave and one joins ----

  lemma {:induction false} AllLeave(c: Config, truth: seq<byte>, s: State) returns (s': State)
    requires Working(c, truth, s)
    ensures Working(c, truth, s') && Leads(c, truth, false, s, s') && s'.peers == map[]
    decreases s.peers.Keys
  {
    hide Working, Leads, Step, Inv, Config.Valid;
    WorkingSound(c, truth, s);
    if s.peers == map[] {
      s' := s;
      Stays(c, truth, false, s);
    } else {
      var a :| a in s.peers;
      var s1 := ClosePeer(s, a);
      EndIsStep(c, s, a, None, 0);
      Moves(c, truth, false, s, Message(a, None, 0), s1);
      assert a !in s1.peers.Keys && s1.peers.Keys <= s.peers.Keys;
      s' := AllLeave(c, truth, s1);
      LeadsOn(c, truth, false, s, s1, s');
    }
  }

  lemma WorkingSound(c: Config, truth: seq<byte>, s: State)
    requires Working(c, truth, s)
    ensures c.Valid() && Inv(c, s) && Sound(c, s)
  {
  }

  /** The peer has no piece that may be started. */
  ghost predicate Covered(s: State, a: Address) {
    a in s.peers && s.peers[a].have <= s.pieceSet + s.active.Keys
  }

  ghost predicate Settled(c: Config, s: State, a: Address) {
    Covered(s, a) && SessionMessages.SentTrue(c, s)
  }

  ghost predicate OnWire(c: Config, s: State, a: Address, k: nat, b: nat) {
    a in s.peers && SessionMessages.StillAsked(c, s.peers[a].sent, k, b * STANDARD_BLOCK_LENGTH)
  }

  lemma NoPeersTrue(c: Config, s: State)
    requires Sound(c, s) && s.peers == map[]
    ensures SessionMessages.SentTrue(c, s)
  {
  }

  lemma OneJoins(c: Config, truth: seq<byte>, s: State, a: Address) returns (s': State)
    requires Working(c, truth, s) && s.peers == map[]
    ensures Working(c, truth, s') && Leads(c, truth, true, s, s') && Settled(c, s', a)
    ensures s'.active == s.active
  {
    hide Working, Leads, Step, Inv, Config.Valid, SessionMessages.SentTrue;
    WorkingSound(c, truth, s);
    NoPeersTrue(c, s);
    var e;
    e, s' := Joins(c, s, a);
    Moves(c, truth, true, s, e, s');
    assert s'.peers[a].have == {};
  }

  // ---- One block arrives ----

  lemma TrueBlock(c: Config, truth: seq<byte>, k: nat, b: nat) returns (m: seq<byte>)
    requires c.Valid() && Aligned(c) && TrueContent(c, truth) && k < c.t.totalPieces && b < c.t.BlockCount(k)
    ensures 9 <= |m| <= 9 + MAX_BLOCK_LENGTH && m[0] == PIECE && Field(m, 1) == k
    ensures Field(m, 5) == b * STANDARD_BLOCK_LENGTH && Field(m, 5) + |m| - 9 <= c.t.PieceLength(k)
    ensures HonestMessage(c, truth, m)
  {
    hide Wire, Field, Torrent.BlockCount, TrueContent;
    var begin, length := b * STANDARD_BLOCK_LENGTH, RequestLength(c, k, b);
    RequestWithin(c, k, b);
    c.t.PieceBounds(k);
    TrueSize(c, truth);
    var from := c.t.Start(k) + begin;
    m := PieceMessage(k, begin, truth[from..from + length]);
    WireField(m, 1, k);
    WireField(m, 5, begin);
    assert m[9..] == truth[from..from + length];
    assert begin / STANDARD_BLOCK_LENGTH == b;
  }

  /** The message brings this block of an active piece. */
  ghost predicate Brings(c: Config, s: State, m: seq<byte>, k: nat, b: nat) {
    && k in s.active && k < c.t.totalPieces && k !in s.pieceSet && b < |s.active[k].counts|
    && |s.active[k].buffer| == c.t.PieceLength(k) && |s.active[k].counts| == c.t.BlockCount(k)
    && |m| >= 9 && m[0] == PIECE && Field(m, 1) == k && Field(m, 5) == b * STANDARD_BLOCK_LENGTH
    && b * STANDARD_BLOCK_LENGTH <= c.t.PieceLength(k) && b * STANDARD_BLOCK_LENGTH / STANDARD_BLOCK_LENGTH == b
  }

  lemma BlockBrought(c: Config, truth: seq<byte>, s: State, k: nat, b: nat) returns (m: seq<byte>)
    requires Working(c, truth, s) && k in s.active && b < |s.active[k].counts|
    ensures Brings(c, s, m, k, b) && HonestMessage(c, truth, m) && CheckPieceMessage(c, s, m) == None
  {
    hide Field, Inv, AllRight, TrueContent, Aligned;
    BlockStart(c, s, k, b);
    m := TrueBlock(c, truth, k, b);
  }

  /** The block leaves others missing: it is marked. */
  lemma MarkedBlock(c: Config, s: State, a: Address, k: nat, b: nat, m: seq<byte>) returns (s1: State)
    requires Sound(c, s) && a in s.peers && Brings(c, s, m, k, b)
    requires !LastMissing(s, k, b * STANDARD_BLOCK_LENGTH)
    ensures Records(c, s, a, m, s1) && InBuffer(c, m) && !Hashless(c, s, m) && a in s1.peers
    ensures s1.peers[a].have == s.peers[a].have && s1.pieceSet == s.pieceSet && s1.active.Keys == s.active.Keys
    ensures s1.active[k].counts == s.active[k].counts[b := -1]
    ensures s1.peers[a].ourRequests == s.peers[a].ourRequests - {Pack(k, b * STANDARD_BLOCK_LENGTH)}
  {
    hide Field, Inv, Pack;
    SoundInv(c, s);
    StoreSize(c, s);
    var begin := b * STANDARD_BLOCK_LENGTH;
    s1 := Marked(c, Copied(s, k, begin, m[9..]), a, k, begin);
    RecordsBlock(c, s, a, m, s1);
  }

  lemma StillAsked(c: Config, s: State, a: Address, k: nat, b: nat, s1: State)
    requires c.Valid() && k < c.t.totalPieces && AllAsked(s, a, k) && b < |s.active[k].counts| == c.t.BlockCount(k)
    requires k in s1.active && s1.active[k].counts == s.active[k].counts[b := -1] && a in s1.peers
    requires s1.peers[a].ourRequests == s.peers[a].ourRequests - {Pack(k, b * STANDARD_BLOCK_LENGTH)}
    ensures AllAsked(s1, a, k)
  {
    hide Pack, Torrent.BlockCount, Config.Valid;
    forall d: nat | d < |s1.active[k].counts| && s1.active[k].counts[d] > 0
      ensures Pack(k, d * STANDARD_BLOCK_LENGTH) in s1.peers[a].ourRequests
    {
      if Pack(k, d * STANDARD_BLOCK_LENGTH) == Pack(k, b * STANDARD_BLOCK_LENGTH) {
        PackInjective(c, k, d, k, b);
      }
    }
  }

  /** The block is the last one: its piece is stored, for its content is good. */
  lemma StoredBlock(c: Config, truth: seq<byte>, s: State, a: Address, k: nat, b: nat, m: seq<byte>)
    returns (s1: State)
    requires Working(c, truth, s) && a in s.peers && Brings(c, s, m, k, b) && HonestMessage(c, truth, m)
    requires LastMissing(s, k, b * STANDARD_BLOCK_LENGTH)
    ensures Records(c, s, a, m, s1) && InBuffer(c, m) && !Hashless(c, s, m) && a in s1.peers
    ensures s1.peers[a].have == s.peers[a].have && s1.pieceSet == s.pieceSet + {k}
    ensures s1.active.Keys == s.active.Keys - {k}
  {
    hide Field, Inv, AllRight, TrueContent, Aligned, HonestMessage, Torrent.Good;
    StoreSize(c, s);
    var begin := b * STANDARD_BLOCK_LENGTH;
    var s0 := Copied(s, k, begin, m[9..]);
    LastIsGood(c, truth, s, a, k, b, m);
    c.t.PieceBounds(k);
    s1 := StoredNow(c, s0, a, k, begin);
    RecordsBlock(c, s, a, m, s1);
  }

  lemma LastIsGood(c: Config, truth: seq<byte>, s: State, a: Address, k: nat, b: nat, m: seq<byte>)
    requires Working(c, truth, s) && Brings(c, s, m, k, b) && HonestMessage(c, truth, m)
    requires LastMissing(s, k, b * STANDARD_BLOCK_LENGTH)
    ensures c.t.Good(Filled(s.active[k], b * STANDARD_BLOCK_LENGTH, m[9..]).buffer, k)
    ensures !Hashless(c, s, m)
  {
    hide Field, Inv, AllRight, TrueContent, Aligned, HonestMessage;
    var begin := b * STANDARD_BLOCK_LENGTH;
    var content := Filled(s.active[k], begin, m[9..]).buffer;
    assert SessionTheorems.Completes(c, s, Message(a, Some(m), 0), k, content);
    CompletedPieceIsGood(c, truth, s, Message(a, Some(m), 0), k, content);
  }

  /** A cache need not hold the piece that was written. */
  lemma StoredNow(c: Config, s: State, a: Address, k: nat, begin: nat) returns (s1: State)
    requires c.Valid() && |s.flat| == c.t.totalSize && a in s.peers && k in s.active && k < c.t.totalPieces
    requires |s.active[k].buffer| == c.t.PieceLength(k) && LastMissing(s, k, begin)
    requires c.t.Good(s.active[k].buffer, k)
    ensures RecordBlock(c, s, a, k, begin, s1) && a in s1.peers && s1.peers[a].have == s.peers[a].have
    ensures s1.pieceSet == s.pieceSet + {k} && s1.active.Keys == s.active.Keys - {k}
  {
    hide Torrent.Good;
    c.t.PieceBounds(k);
    s1 := Stored(c, Marked(c, s, a, k, begin), k).(boxes := map[]);
  }

  /** The piece is the only one that is being downloaded, and the peer was asked for each block that anyone was. */
  ghost predicate Expects(s: State, a: Address, k: nat) {
    AllAsked(s, a, k) && s.active.Keys == {k} && k in s.peers[a].have
  }

  ghost predicate Waiting(s: State, a: Address, k: nat) {
    Expects(s, a, k) && SomeAsked(s.active[k].counts)
  }

  lemma LateAsked(s: State, a: Address, k: nat)
    requires AllAsked(s, a, k)
    ensures AllAsked(Late(s, a), a, k)
  {
  }

  lemma NextBlock(c: Config, byAnswers: bool, s: State, a: Address, k: nat) returns (b: nat)
    requires Sound(c, s) && Settled(c, s, a) && k in s.active && (byAnswers ==> Waiting(s, a, k))
    ensures b < |s.active[k].counts| && s.active[k].counts[b] != -1 && b in MissingBlocks(s.active[k].counts)
    ensures byAnswers ==> OnWire(c, s, a, k, b)
  {
    hide Inv, Pack, Torrent.BlockCount, SessionMessages.SentTrue, SessionMessages.StillAsked;
    SoundInv(c, s);
    if byAnswers {
      b :| b < |s.active[k].counts| && s.active[k].counts[b] > 0;
      BlockStart(c, s, k, b);
      SessionMessages.RememberedOnWire(c, s, a, k, b);
    } else {
      b := SomeMissing(c, s, k);
    }
  }

  lemma AnswerSize(c: Config, truth: seq<byte>, s: State, m: seq<byte>, k: nat, b: nat)
    requires c.Valid() && Brings(c, s, m, k, b) && HonestMessage(c, truth, m)
    ensures |m| - 9 == BlockSize(c, k, b * STANDARD_BLOCK_LENGTH)
  {
    hide Field, Torrent.BlockCount, RequestLength, BlockSize;
    BlockFits(c, k, b);
  }

  /** A true block is handled, and the request that follows it starts no piece. */
  lemma Handles(c: Config, truth: seq<byte>, byAnswers: bool, s: State, a: Address, k: nat, b: nat, m: seq<byte>,
                s1: State)
    returns (s': State)
    requires Working(c, truth, s) && a in s.peers && Brings(c, s, m, k, b) && HonestMessage(c, truth, m)
    requires CheckPieceMessage(c, s, m) == None
    requires Records(c, s, a, m, s1) && InBuffer(c, m) && !Hashless(c, s, m) && Covered(s1, a) && Settled(c, s, a)
    requires byAnswers ==> OnWire(c, s, a, k, b)
    ensures Working(c, truth, s') && Leads(c, truth, byAnswers, s, s') && Settled(c, s', a)
    ensures s'.pieceSet == s1.pieceSet && s'.active.Keys == s1.active.Keys && Kept(s1.active, s'.active)
    ensures Expects(s1, a, k) ==> Waiting(s', a, k)
  {
    hide Working, Field, Inv, Records, Requests, InBuffer, Hashless, RequestBlock, CheckPieceMessage, HonestMessage;
    hide Handled, Leads, Step, Config.Valid, Kept, AllAsked, Pack;
    hide SessionMessages.SentTrue, SessionMessages.StillAsked, BlockSize, Torrent.BlockCount;
    WorkingSound(c, truth, s);
    RecordsSound(c, s, a, m, s1);
    SoundInv(c, s1);
    var s2 := RequestPossible(c, s1, a, 0);
    NoNewPiece(c, s1, a, 0, s2);
    RequestBlockFrame(c, s1, a, 0, s2);
    RequestBlockKept(c, s1, a, 0, s2);
    RequestsBlock(c, s1, a, 0, s2);
    if Expects(s1, a, k) {
      IsActiveOk(c, s1, k);
      NextAsked(c, s1, a, 0, s2, k);
      LateAsked(s2, a, k);
    }
    IsArrival(c, s, a, m);
    ReceiveHandled(c, s, a, m, 0, s1, s2);
    s' := Late(s2, a);
    HandledIsStep(c, s, a, m, 0, Proceed, s');
    AnswerSize(c, truth, s, m, k, b);
    Moves(c, truth, byAnswers, s, Message(a, Some(m), 0), s');
  }

  // ---- A piece is completed ----

  /** The missing blocks of an active piece arrive one after the other, whatever had arrived before. If the peer was
      asked for what is to come, it will have been asked for each of them. */
  lemma {:induction false} PieceFinishes(c: Config, truth: seq<byte>, byAnswers: bool, s: State, a: Address, k: nat)
    returns (s': State)
    requires Working(c, truth, s) && Settled(c, s, a) && k in s.active && (byAnswers ==> Waiting(s, a, k))
    ensures Working(c, truth, s') && Leads(c, truth, byAnswers, s, s') && Settled(c, s', a)
    ensures s'.pieceSet == s.pieceSet + {k} && s'.active.Keys == s.active.Keys - {k}
    decreases MissingBlocks(s.active[k].counts)
  {
    hide Working, Inv, Records, InBuffer, Hashless, LastMissing, CheckPieceMessage, HonestMessage, Config.Valid;
    hide Leads, Waiting, AllAsked, Pack, SessionMessages.SentTrue, SessionMessages.StillAsked;
    WorkingSound(c, truth, s);
    var b := NextBlock(c, byAnswers, s, a, k);
    var m := BlockBrought(c, truth, s, k, b);
    if LastMissing(s, k, b * STANDARD_BLOCK_LENGTH) {
      var s1 := StoredBlock(c, truth, s, a, k, b, m);
      s' := Handles(c, truth, byAnswers, s, a, k, b, m, s1);
    } else {
      var s1 := MarkedBlock(c, s, a, k, b, m);
      if byAnswers {
        WaitingOn(c, s, a, k, b, s1);
      }
      var s2 := Handles(c, truth, byAnswers, s, a, k, b, m, s1);
      SameMissing(s1.active[k], s2.active[k]);
      assert b !in MissingBlocks(s2.active[k].counts);
      s' := PieceFinishes(c, truth, byAnswers, s2, a, k);
      LeadsOn(c, truth, byAnswers, s, s2, s');
    }
  }

  lemma WaitingOn(c: Config, s: State, a: Address, k: nat, b: nat, s1: State)
    requires Sound(c, s) && Waiting(s, a, k) && b < |s.active[k].counts|
    requires k in s1.active && s1.active[k].counts == s.active[k].counts[b := -1] && s1.active.Keys == s.active.Keys
    requires a in s1.peers && s1.peers[a].have == s.peers[a].have
    requires s1.peers[a].ourRequests == s.peers[a].ourRequests - {Pack(k, b * STANDARD_BLOCK_LENGTH)}
    ensures Expects(s1, a, k)
  {
    hide Pack, Inv, AllAsked;
    SoundInv(c, s);
    IsActiveOk(c, s, k);
    StillAsked(c, s, a, k, b, s1);
  }

  lemma {:induction false} ActivesFinish(c: Config, truth: seq<byte>, s: State, a: Address) returns (s': State)
    requires Working(c, truth, s) && Settled(c, s, a)
    ensures Working(c, truth, s') && Leads(c, truth, false, s, s') && Settled(c, s', a) && s'.active == map[]
    decreases s.active.Keys
  {
    hide Working, Leads, Config.Valid, SessionMessages.SentTrue;
    WorkingSound(c, truth, s);
    if s.active == map[] {
      s' := s;
      Stays(c, truth, false, s);
    } else {
      var k :| k in s.active;
      var s1 := PieceFinishes(c, truth, false, s, a, k);
      s' := ActivesFinish(c, truth, s1, a);
      LeadsOn(c, truth, false, s, s1, s');
    }
  }

  // ---- The missing pieces are fetched ----

  /** The peer gets a piece that we lack, unchokes us, and is asked for it. */
  lemma PieceStarts(c: Config, truth: seq<byte>, s: State, a: Address, k: nat) returns (s': State)
    requires Working(c, truth, s) && Settled(c, s, a) && s.active == map[] && k < c.t.totalPieces && k !in s.pieceSet
    ensures Working(c, truth, s') && Leads(c, truth, true, s, s') && Settled(c, s', a)
    ensures s'.pieceSet == s.pieceSet && s'.active.Keys == {k} && Waiting(s', a, k)
  {
    hide AllAsked, SomeAsked, Working, Step, Inv, Leads, Config.Valid, SessionMessages.SentTrue;
    WorkingSound(c, truth, s);
    var s1 := Has(c, s, a, k, 0);
    Moves(c, truth, true, s, Message(a, Some(HaveMessage(k)), 0), s1);
    WorkingSound(c, truth, s1);
    s' := Unchoked(c, s1, a, k, 0);
    Moves(c, truth, true, s1, Message(a, Some([UNCHOKE]), 0), s');
    LeadsOn(c, truth, true, s, s1, s');
  }

  lemma {:induction false} MissingFetched(c: Config, truth: seq<byte>, s: State, a: Address) returns (s': State)
    requires Working(c, truth, s) && Settled(c, s, a) && s.active == map[]
    ensures Working(c, truth, s') && Leads(c, truth, true, s, s') && s'.pieceSet >= c.t.AllPieces()
    decreases c.t.AllPieces() - s.pieceSet
  {
    hide Working, Leads, Config.Valid, SessionMessages.SentTrue;
    WorkingSound(c, truth, s);
    if c.t.AllPieces() <= s.pieceSet {
      s' := s;
      Stays(c, truth, true, s);
    } else {
      var k :| k in c.t.AllPieces() && k !in s.pieceSet;
      var s1 := PieceStarts(c, truth, s, a, k);
      var s2 := PieceFinishes(c, truth, true, s1, a, k);
      LeadsOn(c, truth, true, s, s1, s2);
      assert s2.active == map[];
      s' := MissingFetched(c, truth, s2, a);
      LeadsOn(c, truth, true, s, s2, s');
    }
  }

  // ---- The end ----

  /** From every state of an honest run, an honest continuation leaves nothing to download. */
  lemma CanFinish(c: Config, truth: seq<byte>, s: State) returns (s': State)
    requires Working(c, truth, s)
    ensures Working(c, truth, s') && Leads(c, truth, false, s, s') && s'.left == 0
  {
    hide Working, Leads, Config.Valid, Settled;
    WorkingSound(c, truth, s);
    var a := Address("peer");
    var s1 := AllLeave(c, truth, s);
    var s2 := OneJoins(c, truth, s1, a);
    LeadsAnyway(c, truth, s1, s2);
    LeadsOn(c, truth, false, s, s1, s2);
    var s3 := ActivesFinish(c, truth, s2, a);
    LeadsOn(c, truth, false, s, s2, s3);
    s' := MissingFetched(c, truth, s3, a);
    LeadsAnyway(c, truth, s3, s');
    LeadsOn(c, truth, false, s, s3, s');
    NothingLeftNow(c, truth, s');
  }

  lemma NothingLeftNow(c: Config, truth: seq<byte>, s: State)
    requires Working(c, truth, s) && s.pieceSet >= c.t.AllPieces()
    ensures s.left == 0
  {
    NothingLeft(c, s.pieceSet, s.goodPieces, s.left);
  }

  /** However an honest download from nothing has gone so far, it can go on to store exactly the true content. */
  lemma NeverStuck(c: Config, truth: seq<byte>, s: State, events: seq<Event>, s1: State)
    requires c.Valid() && Aligned(c) && TrueContent(c, truth) && Initial(c, s) && s.pieceSet == {}
    requires AllHonest(c, truth, events) && Reaches(c, s, events, s1)
    ensures exists more, s2 :: AllHonest(c, truth, more) && Reaches(c, s1, more, s2) && s2.left == 0 && s2.flat == truth
  {
    hide Inv, Reaches, Goes, TrueContent, Aligned, Accounting, HonestEvent, SessionMessages.SentTrue;
    InitialInv(c, s);
    TrueSize(c, truth);
    HonestRun(c, truth, s, events, s1);
    var s2 := CanFinish(c, truth, s1);
    var more :| Goes(c, truth, false, s1, more, s2);
    GoesReaches(c, truth, false, s1, more, s2);
    ReachesOn(c, s, events, s1, more, s2);
    FinishedDownload(c, truth, s, events + more, s2);
  }

  /** A loaded session, from nothing, in which no block comes unasked: it can end with nothing left. */
  lemma AnswersSuffice(c: Config, truth: seq<byte>, s: State) returns (s': State)
    requires Working(c, truth, s) && s.peers == map[] && s.active == map[]
    ensures Leads(c, truth, true, s, s') && s'.left == 0
  {
    hide Working, Leads, Config.Valid, SessionMessages.SentTrue;
    WorkingSound(c, truth, s);
    var a := Address("peer");
    var s1 := OneJoins(c, truth, s, a);
    s' := MissingFetched(c, truth, s1, a);
    LeadsOn(c, truth, true, s, s1, s');
    NothingLeftNow(c, truth, s');
  }

  /** Every torrent whose requests tile its pieces, and whose hashes are those of some content, can be downloaded by
      answers to our requests alone, and then exactly this content is stored. */
  lemma CanDownload(c: Config, truth: seq<byte>)
    requires c.Valid() && Aligned(c) && TrueContent(c, truth)
    ensures exists s, events, s' ::
              && Initial(c, s) && s.pieceSet == {}
              && Goes(c, truth, true, s, events, s') && s'.left == 0 && s'.flat == truth
  {
    hide Inv, Reaches, Goes, TrueContent, Aligned, Accounting, HonestEvent, SessionMessages.SentTrue;
    NothingAccounted(c);
    var s := Start(c, {}, c.t.totalSize);
    InitialInv(c, s);
    var s' := AnswersSuffice(c, truth, s);
    var events :| Goes(c, truth, true, s, events, s');
    GoesReaches(c, truth, true, s, events, s');
    FinishedDownload(c, truth, s, events, s');
  }
}
