/** What happens to the blocks of active pieces: a block that is here stays here, and in an honest swarm
    every block that is here is right. */
module SessionBlocks {
  import opened Arith
  import opened Bytes
  import opened Geometry
  import opened SessionState
  import opened SessionInvariant
  import opened SessionRun
  import opened SessionTheorems

  // ---- A block that is here stays here ----

  /** The same blocks are here, with the same bytes; only the counts of the others may differ. */
  ghost predicate SameBlocks(v: Active, w: Active) {
    && w.buffer == v.buffer && |w.counts| == |v.counts|
    && forall b | 0 <= b < |v.counts| :: w.counts[b] == -1 <==> v.counts[b] == -1
  }

  ghost predicate NothingHere(v: Active) {
    forall b | 0 <= b < |v.counts| :: v.counts[b] != -1
  }

  /** No active piece is lost or loses a block, and a new one has none. */
  ghost predicate Kept(before: map<nat, Active>, after: map<nat, Active>) {
    && (forall k | k in before :: k in after && SameBlocks(before[k], after[k]))
    && (forall k | k in after && k !in before :: NothingHere(after[k]))
  }

  lemma KeptTransitive(x: map<nat, Active>, y: map<nat, Active>, z: map<nat, Active>)
    requires Kept(x, y) && Kept(y, z)
    ensures Kept(x, z)
  {
    forall k | k in z && k !in x
      ensures NothingHere(z[k])
    {
      if k in y {
        assert SameBlocks(y[k], z[k]) && NothingHere(y[k]);
      }
    }
    forall k | k in x
      ensures k in z && SameBlocks(x[k], z[k])
    {
      assert SameBlocks(x[k], y[k]) && SameBlocks(y[k], z[k]);
    }
  }

  lemma RequestedKept(c: Config, s: State, a: Address, now: int, endgame: bool, s': State)
    requires a in s.peers && RequestsActive(c, s, a, now, endgame, s')
    ensures Kept(s.active, s'.active)
  {
    hide Kept, SameBlocks, Asked;
    var k, b: nat :|
      && k in s.active && k in s.peers[a].have
      && (if endgame then EndgameBlock(s.active[k].counts, b) else FreeBlock(s.active[k].counts, b))
      && s' == Requested(c, s, a, k, b, now);
    BumpedSame(s.active[k], b);
    UpdateKept(s.active, k, Bumped(s.active[k], b));
  }

  lemma BumpedSame(v: Active, b: nat)
    requires b < |v.counts| && v.counts[b] >= 0
    ensures SameBlocks(v, Bumped(v, b))
  {
  }

  lemma UpdateKept(active: map<nat, Active>, k: nat, v: Active)
    requires k in active && SameBlocks(active[k], v)
    ensures Kept(active, active[k := v])
  {
    hide SameBlocks;
    forall l | l in active
      ensures SameBlocks(active[l], active[k := v][l])
    {
      SameItself(active[l]);
    }
  }

  lemma SameItself(v: Active)
    ensures SameBlocks(v, v)
  {
  }

  lemma NewPieceKept(c: Config, s: State, a: Address, k: nat, now: int)
    requires a in s.peers && k !in s.active && c.t.BlockCount(k) > 0
    ensures Kept(s.active, Requested(c, Started(c, s, k), a, k, 0, now).active)
  {
    var v := Bumped(Fresh(c, k), 0);
    assert Requested(c, Started(c, s, k), a, k, 0, now).active == s.active[k := v];
    assert NothingHere(v);
  }

  lemma StartsPieceKept(c: Config, s: State, a: Address, now: int, s': State)
    requires a in s.peers && StartsPiece(c, s, a, now, s')
    ensures Kept(s.active, s'.active)
  {
    hide Kept;
    var k: nat :|
      && Unclaimed(s, s.peers[a], k) && k < c.t.totalPieces
      && c.t.BlockCount(k) > 0
      && s' == Requested(c, Started(c, s, k), a, k, 0, now);
    NewPieceKept(c, s, a, k, now);
  }

  lemma RequestBlockKept(c: Config, s: State, a: Address, now: int, s': State)
    requires a in s.peers && RequestBlock(c, s, a, now, s')
    ensures Kept(s.active, s'.active)
  {
    var p := s.peers[a];
    if RequestsActive(c, s, a, now, false, s') {
      RequestedKept(c, s, a, now, false, s');
    } else if |s.active| >= c.maxActive {
    } else if exists k :: Unclaimed(s, p, k) {
      StartsPieceKept(c, s, a, now, s');
    } else if exists k :: k in s.active && k in p.have && !Complete(s.active[k].counts) {
      RequestedKept(c, s, a, now, true, s');
    }
  }

  lemma ForgottenKept(s: State, keys: set<nat>)
    ensures Kept(s.active, Forgotten(s, keys).active)
  {
  }

  lemma UnchokeKept(c: Config, s: State, a: Address, now: int, s': State)
    requires a in s.peers && Unchoke(c, s, a, now, s')
    ensures Kept(s.active, s'.active)
  {
    var s0 := WithPeer(s, a, s.peers[a].(peerChoking := false));
    var s1, s2 :| RequestBlock(c, s0, a, now, s1) && a in s1.peers
                  && RequestBlock(c, s1, a, now, s2) && a in s2.peers && s' == Late(s2, a);
    RequestBlockKept(c, s0, a, now, s1);
    RequestBlockKept(c, s1, a, now, s2);
    KeptTransitive(s.active, s1.active, s2.active);
  }

  lemma EffectKept(c: Config, s: State, a: Address, m: seq<byte>, now: int, s': State)
    requires c.Valid() && Inv(c, s) && a in s.peers && m != []
    requires CheckMessage(c, s, s.peers[a], m) == None && !Crashes(c, s, s.peers[a], m)
    requires Effect(c, s, a, m, now, s') && !Receives(s, m)
    ensures Kept(s.active, s'.active)
  {
    if m[0] == CHOKE {
      ForgottenKept(s, s.peers[a].ourRequests.Keys);
    } else if m[0] == UNCHOKE {
      UnchokeKept(c, s, a, now, s');
    } else {
      OtherEffects(c, s, a, m, now, s');
    }
  }

  /** The event brings a block of an active piece, which is accepted. */
  ghost predicate Delivers(c: Config, s: State, e: Event)
    requires c.Valid() && Inv(c, s)
  {
    && e.Message? && e.address in s.peers && e.message.Some? && e.message.value != []
    && Receives(s, e.message.value)
    && CheckMessage(c, s, s.peers[e.address], e.message.value) == None
  }

  /** Choking, time-outs, endgame requests, connections and their ends: none of them undoes a received block. */
  lemma BlocksStayHere(c: Config, s: State, e: Event, s': State)
    requires c.Valid() && Inv(c, s) && Step(c, s, e, s') && !Delivers(c, s, e)
    ensures Kept(s.active, s'.active)
  {
    match e
    case ChokeTick =>
    case Connect(a, id, greeting) =>
    case Message(a, m, now) =>
      if m.None? || (m.value != [] && CheckMessage(c, s, s.peers[a], m.value).Some?) {
        ForgottenKept(s, s.peers[a].ourRequests.Keys);
      } else if m.value != [] {
        EffectKept(c, s, a, m.value, now, s');
      }
    case KeepAlive(a, now) => ForgottenKept(s, TimedOut(s.peers[a], now));
    case Expire(a) => ForgottenKept(s, s.peers[a].ourRequests.Keys);
  }

  lemma RecordBlockActive(c: Config, s: State, a: Address, piece: nat, begin: nat, data: seq<byte>, s1: State)
    requires c.Valid() && |s.flat| == c.t.totalSize && a in s.peers && piece in s.active
    requires begin <= |s.active[piece].buffer|
    requires ActiveOk(c, s.pieceSet, piece, s.active[piece]) && begin / STANDARD_BLOCK_LENGTH < |s.active[piece].counts|
    requires RecordBlock(c, Copied(s, piece, begin, data), a, piece, begin, s1)
    ensures var v := HereNow(Filled(s.active[piece], begin, data), begin / STANDARD_BLOCK_LENGTH);
            s1.active == if Complete(v.counts) then s.active - {piece} else s.active[piece := v]
  {
    c.t.PieceBounds(piece);
    var w := Filled(s.active[piece], begin, data);
    var v := HereNow(w, begin / STANDARD_BLOCK_LENGTH);
    RemoveUpdated(s.active, piece, w);
    RemoveUpdated(s.active[piece := w], piece, v);
    assert s.active[piece := w][piece := v] == s.active[piece := v];
  }

  lemma ReceiveMarks(c: Config, s: State, a: Address, piece: nat, begin: nat, data: seq<byte>, now: int, s': State)
    requires c.Valid() && |s.flat| == c.t.totalSize && a in s.peers && piece in s.active
    requires begin <= |s.active[piece].buffer|
    requires ActiveOk(c, s.pieceSet, piece, s.active[piece]) && begin / STANDARD_BLOCK_LENGTH < |s.active[piece].counts|
    requires ReceivePiece(c, s, a, piece, begin, data, now, s')
    ensures var v := HereNow(Filled(s.active[piece], begin, data), begin / STANDARD_BLOCK_LENGTH);
            Kept(if Complete(v.counts) then s.active - {piece} else s.active[piece := v], s'.active)
  {
    var s1, s2 :| RecordBlock(c, Copied(s, piece, begin, data), a, piece, begin, s1) && a in s1.peers
                  && RequestBlock(c, s1, a, now, s2) && a in s2.peers && s' == Late(s2, a);
    RecordBlockActive(c, s, a, piece, begin, data, s1);
    RequestBlockKept(c, s1, a, now, s2);
  }

  lemma StoreSize(c: Config, s: State)
    requires c.Valid() && Inv(c, s)
    ensures |s.flat| == c.t.totalSize
  {
  }

  /** A delivery adds its block to the piece it belongs to and touches no other piece; when that completes the
      piece, the piece is no longer active, or starts afresh if its hash was wrong. */
  lemma DeliveryMarks(c: Config, s: State, e: Event, s': State)
    requires c.Valid() && Inv(c, s) && Step(c, s, e, s') && Delivers(c, s, e)
    ensures var m := e.message.value;
            var piece, begin := Field(m, 1), Field(m, 5);
            && Fits(c, s, m, piece)
            && var v := HereNow(Filled(s.active[piece], begin, m[9..]), begin / STANDARD_BLOCK_LENGTH);
               Kept(if Complete(v.counts) then s.active - {piece} else s.active[piece := v], s'.active)
  {
    hide ReceivePiece, Kept, CheckSpan, Inv, BitfieldMessage;
    var m := e.message.value;
    AcceptedBlock(c, s, s.peers[e.address], m);
    assert |s.flat| == c.t.totalSize by {
      StoreSize(c, s);
    }
    ReceiveMarks(c, s, e.address, Field(m, 1), Field(m, 5), m[9..], e.now, s');
  }

  // ---- Missing blocks ----

  ghost function MissingBlocks(counts: seq<int>): set<nat> {
    set b: nat | b < |counts| && counts[b] != -1
  }

  lemma SameMissing(v: Active, w: Active)
    requires SameBlocks(v, w)
    ensures MissingBlocks(w.counts) == MissingBlocks(v.counts)
  {
  }

  lemma BlockStart(c: Config, s: State, k: nat, b: nat)
    requires c.Valid() && Inv(c, s) && k in s.active && b < |s.active[k].counts|
    ensures k < c.t.totalPieces && k !in s.pieceSet && |s.active[k].buffer| == c.t.PieceLength(k)
    ensures |s.active[k].counts| == c.t.BlockCount(k) && |s.flat| == c.t.totalSize
    ensures b * STANDARD_BLOCK_LENGTH < c.t.PieceLength(k) <= c.t.pieceLength < TWO_TO_THE_32
    ensures b * STANDARD_BLOCK_LENGTH / STANDARD_BLOCK_LENGTH == b
  {
    assert ActiveOk(c, s.pieceSet, k, s.active[k]);
    c.t.BlockBounds(k);
    c.t.PieceBounds(k);
  }

  lemma SomeMissing(c: Config, s: State, k: nat) returns (b: nat)
    requires c.Valid() && Inv(c, s) && k in s.active
    ensures b < |s.active[k].counts| && s.active[k].counts[b] != -1 && b in MissingBlocks(s.active[k].counts)
  {
    assert ActiveOk(c, s.pieceSet, k, s.active[k]);
    b :| b < |s.active[k].counts| && s.active[k].counts[b] != -1;
  }

  // ---- Requests tile a piece ----

  /** Each block of a piece is requested once over its whole length, and no request leaves the piece. */
  ghost predicate RequestsTile(c: Config, piece: nat) {
    forall b: nat | b < c.t.BlockCount(piece) ::
      b * STANDARD_BLOCK_LENGTH + RequestLength(c, piece, b)
      == if b + 1 < c.t.BlockCount(piece) then (b + 1) * STANDARD_BLOCK_LENGTH else c.t.PieceLength(piece)
  }

  /** The code shortens the last request of the last piece only, so a full piece is tiled exactly when the piece
      length is a multiple of the block length. */
  lemma RequestsTileExactly(c: Config, piece: nat)
    requires c.Valid() && piece < c.t.totalPieces
    ensures RequestsTile(c, piece) <==> piece == c.t.totalPieces - 1 || c.t.pieceLength % STANDARD_BLOCK_LENGTH == 0
  {
    c.t.BlockBounds(piece);
    var n := c.t.BlockCount(piece);
    if RequestsTile(c, piece) && piece != c.t.totalPieces - 1 {
      assert (n - 1) * STANDARD_BLOCK_LENGTH + RequestLength(c, piece, n - 1) == c.t.PieceLength(piece);
    }
    if piece == c.t.totalPieces - 1 || c.t.pieceLength % STANDARD_BLOCK_LENGTH == 0 {
      forall b: nat | b < n
        ensures b * STANDARD_BLOCK_LENGTH + RequestLength(c, piece, b)
                == if b + 1 < n then (b + 1) * STANDARD_BLOCK_LENGTH else c.t.PieceLength(piece)
      {
      }
    }
  }

  // ---- An honest swarm ----

  ghost predicate Aligned(c: Config) {
    c.t.totalPieces == 1 || c.t.pieceLength % STANDARD_BLOCK_LENGTH == 0
  }

  /** `truth` is a content with the hashes of the torrent. */
  ghost predicate TrueContent(c: Config, truth: seq<byte>)
    requires c.Valid()
  {
    |truth| == c.t.totalSize && forall i: nat | i < c.t.totalPieces :: c.t.Good(c.t.Slice(truth, i), i)
  }

  /** A PIECE message answers a block request with the true bytes. */
  ghost predicate HonestMessage(c: Config, truth: seq<byte>, m: seq<byte>) {
    |m| >= 9 && m[0] == PIECE ==>
      var piece, begin, data := Field(m, 1), Field(m, 5), m[9..];
      && begin % STANDARD_BLOCK_LENGTH == 0
      && |data| == RequestLength(c, piece, begin / STANDARD_BLOCK_LENGTH)
      && c.t.Start(piece) + begin + |data| <= |truth|
      && data == truth[c.t.Start(piece) + begin..c.t.Start(piece) + begin + |data|]
  }

  ghost predicate HonestEvent(c: Config, truth: seq<byte>, e: Event) {
    e.Message? && e.message.Some? ==> HonestMessage(c, truth, e.message.value)
  }

  /** Every byte of a block that is here is right. */
  ghost predicate RightBlocks(c: Config, truth: seq<byte>, k: nat, v: Active)
    requires c.t.Start(k) + |v.buffer| <= |truth|
  {
    forall i | 0 <= i < |v.buffer| && i / STANDARD_BLOCK_LENGTH < |v.counts|
               && v.counts[i / STANDARD_BLOCK_LENGTH] == -1 ::
      v.buffer[i] == truth[c.t.Start(k) + i]
  }

  ghost predicate AllRight(c: Config, truth: seq<byte>, active: map<nat, Active>) {
    forall k | k in active :: c.t.Start(k) + |active[k].buffer| <= |truth| && RightBlocks(c, truth, k, active[k])
  }

  lemma KeptRight(c: Config, truth: seq<byte>, s: State, active: map<nat, Active>, after: map<nat, Active>)
    requires c.Valid() && |truth| == c.t.totalSize && AllRight(c, truth, active) && Kept(active, after)
    requires ActivesOk(c, s.pieceSet, after)
    ensures AllRight(c, truth, after)
  {
    forall k | k in after
      ensures c.t.Start(k) + |after[k].buffer| <= |truth| && RightBlocks(c, truth, k, after[k])
    {
      assert ActiveOk(c, s.pieceSet, k, after[k]);
      c.t.PieceBounds(k);
      if k in active {
        assert SameBlocks(active[k], after[k]);
        assert RightBlocks(c, truth, k, active[k]);
      } else {
        assert NothingHere(after[k]);
      }
    }
  }

  lemma FilledByte(v: Active, begin: nat, data: seq<byte>, i: nat)
    requires begin + |data| <= |v.buffer| && i < |v.buffer|
    ensures Filled(v, begin, data).buffer[i] == if begin <= i < begin + |data| then data[i - begin] else v.buffer[i]
  {
    assert data[..|data|] == data;
    var r := Filled(v, begin, data).buffer;
    if begin <= i < begin + |data| {
      assert r[i] == r[begin..begin + |data|][i - begin];
    }
  }

  /** An answer covers its block to the end of the block or of the piece. */
  lemma AnswerCovers(c: Config, piece: nat, begin: nat, length: nat, i: nat)
    requires c.Valid() && Aligned(c) && piece < c.t.totalPieces && begin % STANDARD_BLOCK_LENGTH == 0
    requires begin / STANDARD_BLOCK_LENGTH < c.t.BlockCount(piece)
    requires length == RequestLength(c, piece, begin / STANDARD_BLOCK_LENGTH)
    ensures begin + length <= c.t.PieceLength(piece)
    ensures i < c.t.PieceLength(piece) && i / STANDARD_BLOCK_LENGTH == begin / STANDARD_BLOCK_LENGTH ==>
              begin <= i < begin + length
  {
    RequestsTileExactly(c, piece);
    c.t.BlockBounds(piece);
  }

  lemma RequestWithin(c: Config, piece: nat, block: nat)
    requires c.Valid() && piece < c.t.totalPieces && block < c.t.BlockCount(piece)
    ensures 0 < RequestLength(c, piece, block) <= STANDARD_BLOCK_LENGTH
    ensures block * STANDARD_BLOCK_LENGTH < c.t.PieceLength(piece) < TWO_TO_THE_32
    ensures Aligned(c) ==>
              block * STANDARD_BLOCK_LENGTH + RequestLength(c, piece, block) <= c.t.PieceLength(piece)
  {
    c.t.BlockBounds(piece);
    c.t.PieceBounds(piece);
    if Aligned(c) {
      AnswerCovers(c, piece, block * STANDARD_BLOCK_LENGTH, RequestLength(c, piece, block), 0);
    }
  }

  /** An honest block makes its block right, whatever the buffer held there before. */
  lemma HonestBlockRight(c: Config, truth: seq<byte>, s: State, m: seq<byte>, piece: nat)
    requires c.Valid() && Aligned(c) && |truth| == c.t.totalSize && HonestMessage(c, truth, m)
    requires Fits(c, s, m, piece) && m[0] == PIECE && |s.active[piece].counts| == c.t.BlockCount(piece)
    requires c.t.Start(piece) + |s.active[piece].buffer| <= |truth| && RightBlocks(c, truth, piece, s.active[piece])
    ensures var v := Filled(s.active[piece], Field(m, 5), m[9..]);
            RightBlocks(c, truth, piece, HereNow(v, Field(m, 5) / STANDARD_BLOCK_LENGTH))
  {
    var begin, data, v := Field(m, 5), m[9..], s.active[piece];
    var block := begin / STANDARD_BLOCK_LENGTH;
    assert begin + |data| <= |v.buffer| by {
      AnswerCovers(c, piece, begin, |data|, 0);
    }
    var w := HereNow(Filled(v, begin, data), block);
    forall i | 0 <= i < |w.buffer| && i / STANDARD_BLOCK_LENGTH < |w.counts|
               && w.counts[i / STANDARD_BLOCK_LENGTH] == -1
      ensures w.buffer[i] == truth[c.t.Start(piece) + i]
    {
      AnswerCovers(c, piece, begin, |data|, i);
      FilledByte(v, begin, data, i);
      HonestByte(c, truth, piece, v, begin, data, i);
    }
  }

  /** A byte after an answer: from the answer if it is in the block, else as before. */
  lemma HonestByte(c: Config, truth: seq<byte>, piece: nat, v: Active, begin: nat, data: seq<byte>, i: nat)
    requires c.t.Start(piece) + |v.buffer| <= |truth| && RightBlocks(c, truth, piece, v)
    requires begin + |data| <= |v.buffer| && i < |v.buffer| && i / STANDARD_BLOCK_LENGTH < |v.counts|
    requires data == truth[c.t.Start(piece) + begin..c.t.Start(piece) + begin + |data|]
    requires begin <= i < begin + |data| || v.counts[i / STANDARD_BLOCK_LENGTH] == -1
    ensures (if begin <= i < begin + |data| then data[i - begin] else v.buffer[i]) == truth[c.t.Start(piece) + i]
  {
  }

  /** All blocks right: the buffer is the piece. */
  lemma CompleteIsTrue(c: Config, truth: seq<byte>, piece: nat, v: Active)
    requires c.Valid() && |truth| == c.t.totalSize && piece < c.t.totalPieces
    requires |v.buffer| == c.t.PieceLength(piece) && |v.counts| == c.t.BlockCount(piece)
    requires c.t.Start(piece) + |v.buffer| <= |truth| && RightBlocks(c, truth, piece, v) && Complete(v.counts)
    ensures v.buffer == c.t.Slice(truth, piece)
  {
    c.t.BlockBounds(piece);
    forall i | 0 <= i < |v.buffer|
      ensures v.buffer[i] == truth[c.t.Start(piece) + i]
    {
      assert i / STANDARD_BLOCK_LENGTH < |v.counts|;
    }
  }

  /** Every piece we have is stored as it is in the true content. */
  ghost predicate StoredTrue(c: Config, truth: seq<byte>, pieceSet: set<nat>, flat: seq<byte>)
    requires c.Valid() && |flat| == |truth| == c.t.totalSize && pieceSet <= c.t.AllPieces()
  {
    forall i | i in pieceSet :: c.t.Slice(flat, i) == c.t.Slice(truth, i)
  }

  /** In an honest swarm a completed piece always passes the hash check. */
  lemma CompletedPieceIsGood(c: Config, truth: seq<byte>, s: State, e: Event, piece: nat, content: seq<byte>)
    requires c.Valid() && Aligned(c) && Inv(c, s) && TrueContent(c, truth) && AllRight(c, truth, s.active)
    requires HonestEvent(c, truth, e) && Completes(c, s, e, piece, content) && e.message.value[0] == PIECE
    ensures content == c.t.Slice(truth, piece) && c.t.Good(content, piece)
  {
    var m := e.message.value;
    assert ActiveOk(c, s.pieceSet, piece, s.active[piece]);
    HonestBlockRight(c, truth, s, m, piece);
    var v := Filled(s.active[piece], Field(m, 5), m[9..]);
    CompleteIsTrue(c, truth, piece, HereNow(v, Field(m, 5) / STANDARD_BLOCK_LENGTH));
  }

  /** The active pieces after an honest block, before the next request. */
  lemma HonestDelivery(c: Config, truth: seq<byte>, s: State, m: seq<byte>, piece: nat)
    requires c.Valid() && Aligned(c) && |truth| == c.t.totalSize && AllRight(c, truth, s.active)
    requires HonestMessage(c, truth, m) && Fits(c, s, m, piece) && m[0] == PIECE
    requires |s.active[piece].counts| == c.t.BlockCount(piece)
    ensures var v := HereNow(Filled(s.active[piece], Field(m, 5), m[9..]), Field(m, 5) / STANDARD_BLOCK_LENGTH);
            AllRight(c, truth, if Complete(v.counts) then s.active - {piece} else s.active[piece := v])
  {
    HonestBlockRight(c, truth, s, m, piece);
  }

  lemma HonestActives(c: Config, truth: seq<byte>, s: State, e: Event, s': State)
    requires c.Valid() && Aligned(c) && Inv(c, s) && |truth| == c.t.totalSize && AllRight(c, truth, s.active)
    requires HonestEvent(c, truth, e) && Step(c, s, e, s') && Inv(c, s')
    ensures AllRight(c, truth, s'.active)
  {
    if Delivers(c, s, e) {
      var m := e.message.value;
      var piece, begin := Field(m, 1), Field(m, 5);
      DeliveryMarks(c, s, e, s');
      assert ActiveOk(c, s.pieceSet, piece, s.active[piece]);
      HonestDelivery(c, truth, s, m, piece);
      var v := HereNow(Filled(s.active[piece], begin, m[9..]), begin / STANDARD_BLOCK_LENGTH);
      KeptRight(c, truth, s', if Complete(v.counts) then s.active - {piece} else s.active[piece := v], s'.active);
    } else {
      BlocksStayHere(c, s, e, s');
      KeptRight(c, truth, s', s.active, s'.active);
    }
  }

  lemma AddsTrue(c: Config, truth: seq<byte>, s: State, s': State, piece: nat, content: seq<byte>)
    requires c.Valid() && |s.flat| == |truth| == c.t.totalSize && s.pieceSet <= c.t.AllPieces()
    requires Adds(c, s, s', piece, content) && StoredTrue(c, truth, s.pieceSet, s.flat)
    requires content == c.t.Slice(truth, piece)
    ensures StoredTrue(c, truth, s'.pieceSet, s'.flat)
  {
    forall i | i in s'.pieceSet
      ensures c.t.Slice(s'.flat, i) == c.t.Slice(truth, i)
    {
      c.t.SliceAfterWrite(s.flat, piece, content, i);
    }
  }

  lemma HonestStore(c: Config, truth: seq<byte>, s: State, e: Event, s': State)
    requires c.Valid() && Aligned(c) && Inv(c, s) && TrueContent(c, truth) && AllRight(c, truth, s.active)
    requires StoredTrue(c, truth, s.pieceSet, s.flat)
    requires HonestEvent(c, truth, e) && Step(c, s, e, s') && Inv(c, s')
    ensures StoredTrue(c, truth, s'.pieceSet, s'.flat)
  {
    hide Step, AllRight, HonestEvent, Completes, Adds;
    StoreChanges(c, s, e, s');
    if !SameStore(s, s') {
      var piece, content :| Completes(c, s, e, piece, content) && Adds(c, s, s', piece, content);
      OnlyPieceCompletes(c, s, e, s');
      CompletedPieceIsGood(c, truth, s, e, piece, content);
      AddsTrue(c, truth, s, s', piece, content);
    }
  }

  lemma OnlyPieceCompletes(c: Config, s: State, e: Event, s': State)
    requires c.Valid() && Inv(c, s) && Step(c, s, e, s') && !SameStore(s, s')
    ensures e.Message? && e.message.Some? && e.message.value != [] && e.message.value[0] == PIECE
  {
    if e.Message? && e.message.Some? && e.message.value != [] {
      var m := e.message.value;
      if CheckMessage(c, s, s.peers[e.address], m) == None && !Receives(s, m) {
        EffectFrame(c, s, e.address, m, e.now, s');
      }
    }
  }

  /** Honest runs: what is stored is true, and what is being downloaded is right so far. */
  lemma {:induction false} HonestRun(c: Config, truth: seq<byte>, s: State, events: seq<Event>, s': State)
    requires c.Valid() && Aligned(c) && Inv(c, s) && TrueContent(c, truth)
    requires AllRight(c, truth, s.active) && StoredTrue(c, truth, s.pieceSet, s.flat)
    requires forall e | e in events :: HonestEvent(c, truth, e)
    requires Reaches(c, s, events, s')
    ensures Inv(c, s') && AllRight(c, truth, s'.active) && StoredTrue(c, truth, s'.pieceSet, s'.flat)
    decreases |events|
  {
    if events != [] {
      var s1 :| Step(c, s, events[0], s1) && Reaches(c, s1, events[1..], s');
      StepKeeps(c, s, events[0], s1);
      HonestActives(c, truth, s, events[0], s1);
      HonestStore(c, truth, s, events[0], s1);
      HonestRun(c, truth, s1, events[1..], s');
    }
  }

  /** From an empty start, an honest run that has nothing left to download has stored exactly the true content. */
  lemma FinishedDownload(c: Config, truth: seq<byte>, s: State, events: seq<Event>, s': State)
    requires c.Valid() && Aligned(c) && TrueContent(c, truth)
    requires Initial(c, s) && s.pieceSet == {}
    requires forall e | e in events :: HonestEvent(c, truth, e)
    requires Reaches(c, s, events, s') && s'.left == 0
    ensures s'.flat == truth && s'.goodPieces == c.t.totalPieces
  {
    InitialInv(c, s);
    HonestRun(c, truth, s, events, s');
    NothingLeft(c, s'.pieceSet, s'.goodPieces, s'.left);
    c.t.SlicesDetermine(s'.flat, truth);
  }

  lemma NothingLeft(c: Config, pieceSet: set<nat>, goodPieces: nat, left: nat)
    requires c.Valid() && Accounting(c.t, pieceSet, goodPieces, left)
    ensures left == 0 <==> pieceSet == c.t.AllPieces()
    ensures left == 0 <==> goodPieces == c.t.totalPieces
  {
    c.t.SumPositive(c.t.Missing(pieceSet), c.t.totalPieces);
    c.t.CardinalityOfMissing(pieceSet);
    if c.t.Missing(pieceSet) == {} {
      assert pieceSet == c.t.AllPieces();
    }
  }
}
