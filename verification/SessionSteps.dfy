/** What the handlers of a session do, put together from the operations of SessionState. */
module SessionSteps {
  import opened Arith
  import opened Bytes
  import opened Geometry
  import opened SessionState
  import opened SessionInvariant
  import opened Sorting
  import SessionRun
  import SessionTheorems
  import Bitsets

  ghost predicate StoreSound(c: Config, s: State) {
    c.Valid() && StoreOk(c, s.pieceSet, s.flat, s.boxes)
  }

  ghost predicate Sound(c: Config, s: State) {
    c.Valid() && Inv(c, s)
  }

  lemma SoundInv(c: Config, s: State)
    requires Sound(c, s)
    ensures c.Valid() && Inv(c, s)
  {
  }

  /** No block of the piece may be asked for. */
  ghost predicate NoBlock(counts: seq<int>, endgame: bool) {
    if endgame then forall b | 0 <= b < |counts| :: counts[b] < 0 else 0 !in counts
  }

  ghost predicate Asks(c: Config, s: State, a: Address, piece: nat, endgame: bool, now: int, block: int, s': State)
    requires a in s.peers && piece in s.active
  {
    var counts := s.active[piece].counts;
    if block < 0 then s' == s && NoBlock(counts, endgame)
    else && (if endgame then EndgameBlock(counts, block) else FreeBlock(counts, block))
         && s' == Requested(c, s, a, piece, block, now)
  }

  /** No active piece has a free block for the peer, more pieces may be active, and there is none to start. */
  ghost predicate Exhausted(c: Config, s: State, p: Peer) {
    NoFreeBlock(s, p) && |s.active| < c.maxActive && !exists k :: Unclaimed(s, p, k)
  }

  lemma Doubled(c: Config, s: State, a: Address, now: int, done: bool, s': State)
    requires a in s.peers && Exhausted(c, s, s.peers[a]) && ActivesOk(c, s.pieceSet, s.active)
    requires done ==> RequestsActive(c, s, a, now, true, s')
    requires !done ==> s' == WithPeer(s, a, SetInterested(s.peers[a], false))
    requires !done ==> forall k | k in s.active && k in s.peers[a].have :: NoBlock(s.active[k].counts, true)
    ensures SessionState.RequestBlock(c, s, a, now, s')
  {
    forall k | k in s.active
      ensures ActiveOk(c, s.pieceSet, k, s.active[k]) && !NoBlock(s.active[k].counts, true)
    {
      assert ActiveOk(c, s.pieceSet, k, s.active[k]);
    }
  }

  /** Of a new piece the first block is asked for. */
  lemma FirstBlock(c: Config, s: State, a: Address, piece: nat, now: int, block: int, s': State)
    requires c.Valid() && piece < c.t.totalPieces && a in s.peers && Unclaimed(s, s.peers[a], piece)
    requires Asks(c, Started(c, s, piece), a, piece, false, now, block, s')
    ensures StartsPiece(c, s, a, now, s')
  {
    c.t.BlockBounds(piece);
    assert Fresh(c, piece).counts[0] == 0;
  }

  function Told(c: Config, p: Peer, piece: nat, block: nat, request: bool, now: int): Peer {
    if request then Asked(c, p, piece, block, now) else Cancelled(c, p, piece, block)
  }

  // ---- Going through the peers one by one ----

  /** The peers in `done` are as in `after`, the others as in `before`. */
  function Partly(before: map<Address, Peer>, after: map<Address, Peer>, done: set<Address>): map<Address, Peer>
    requires after.Keys == before.Keys
  {
    map b | b in before :: if b in done then after[b] else before[b]
  }

  lemma PartlyNext(before: map<Address, Peer>, after: map<Address, Peer>, done: set<Address>, b: Address)
    requires after.Keys == before.Keys && b in before
    ensures Partly(before, after, done + {b}) == Partly(before, after, done)[b := after[b]]
  {
  }

  lemma PartlyAll(before: map<Address, Peer>, after: map<Address, Peer>, done: set<Address>)
    requires after.Keys == before.Keys && forall b | b in before && b !in done :: after[b] == before[b]
    ensures Partly(before, after, done) == after
  {
  }

  lemma PartlyNone(before: map<Address, Peer>, after: map<Address, Peer>)
    requires after.Keys == before.Keys
    ensures Partly(before, after, {}) == before
  {
  }

  /** The sender is dealt with first; nobody else matters unless more than one was asked. */
  lemma SenderAnswered(c: Config, peers: map<Address, Peer>, a: Address, piece: nat, begin: nat, asked: int)
    requires a in peers
    ensures var after, q := Answered(c, peers, a, piece, begin, asked), peers[a];
            && Partly(peers, after, {a}) == peers[a := q.(ourRequests := q.ourRequests - {Pack(piece, begin)})]
            && (asked <= 1 ==> Partly(peers, after, {a}) == after)
  {
    var after := Answered(c, peers, a, piece, begin, asked);
    if asked <= 1 {
      PartlyAll(peers, after, {a});
    }
  }

  ghost function PartlyDone(s: State, after: map<Address, Peer>, done: set<Address>): State
    requires after.Keys == s.peers.Keys
  {
    s.(peers := Partly(s.peers, after, done))
  }

  // ---- Forgetting one request after the other ----

  lemma ForgottenNone(s: State)
    ensures Forgotten(s, {}) == s
  {
    assert forall k | k in s.active :: LessAsked(s.active[k].counts, k, {}) == s.active[k].counts;
    assert LessAskedAll(s.active, {}) == s.active;
  }

  lemma ForgottenFrame(s: State, keys: set<nat>)
    ensures var s1 := Forgotten(s, keys);
            s1.peers == s.peers && s1.flat == s.flat && s1.boxes == s.boxes
  {
  }

  lemma ForgottenMore(s: State, done: set<nat>, key: nat)
    requires key !in done
    ensures Forgotten(Forgotten(s, done), {key}) == Forgotten(s, done + {key})
  {
    forall k | k in s.active
      ensures var counts := s.active[k].counts;
              LessAsked(LessAsked(counts, k, done), k, {key}) == LessAsked(counts, k, done + {key})
    {
    }
    assert LessAskedAll(LessAskedAll(s.active, done), {key}) == LessAskedAll(s.active, done + {key});
  }

  lemma BlockBegins(c: Config, piece: nat, b: nat)
    requires c.Valid() && piece < c.t.totalPieces && b < c.t.BlockCount(piece)
    ensures b * STANDARD_BLOCK_LENGTH < TWO_TO_THE_32
  {
    c.t.BlockBounds(piece);
    c.t.PieceBounds(piece);
  }

  lemma UnpackBlock(piece: nat, b: nat)
    requires b * STANDARD_BLOCK_LENGTH < TWO_TO_THE_32
    ensures var key := Pack(piece, b * STANDARD_BLOCK_LENGTH);
            PieceOf(key) == piece && BeginOf(key) / STANDARD_BLOCK_LENGTH == b
  {
    Unpack(piece, b * STANDARD_BLOCK_LENGTH);
    Quotient(b * STANDARD_BLOCK_LENGTH, b, STANDARD_BLOCK_LENGTH, 0);
  }

  /** A key is the packed form of one block only. */
  lemma KeyUnpacks(c: Config, key: nat)
    requires c.Valid() && KeyOk(c, key)
    ensures var piece, block := PieceOf(key), BeginOf(key) / STANDARD_BLOCK_LENGTH;
            && piece < c.t.totalPieces && block < c.t.BlockCount(piece)
            && key == Pack(piece, block * STANDARD_BLOCK_LENGTH)
  {
    hide Pack, PieceOf, BeginOf, Torrent.BlockCount, Config.Valid;
    var piece: nat, b: nat :| piece < c.t.totalPieces && b < c.t.BlockCount(piece)
                              && key == Pack(piece, b * STANDARD_BLOCK_LENGTH);
    BlockBegins(c, piece, b);
    UnpackBlock(piece, b);
  }

  lemma PackInjective(c: Config, piece: nat, block: nat, k: nat, b: nat)
    requires c.Valid() && piece < c.t.totalPieces && block < c.t.BlockCount(piece) && k < c.t.totalPieces
    requires b < c.t.BlockCount(k)
    requires Pack(piece, block * STANDARD_BLOCK_LENGTH) == Pack(k, b * STANDARD_BLOCK_LENGTH)
    ensures piece == k && block == b
  {
    hide Pack, PieceOf, BeginOf, Torrent.BlockCount, Config.Valid;
    BlockBegins(c, piece, block);
    BlockBegins(c, k, b);
    UnpackBlock(piece, block);
    UnpackBlock(k, b);
  }

  /** What forgetting one request does to the counts of an active piece. */
  lemma ForgetsOne(c: Config, pieceSet: set<nat>, piece: nat, block: nat, k: nat, v: Active)
    requires c.Valid() && piece < c.t.totalPieces && block < c.t.BlockCount(piece) && ActiveOk(c, pieceSet, k, v)
    ensures var key := Pack(piece, block * STANDARD_BLOCK_LENGTH);
            LessAsked(v.counts, k, {key})
            == if k == piece && v.counts[block] > 0 then v.counts[block := v.counts[block] - 1] else v.counts
  {
    var key := Pack(piece, block * STANDARD_BLOCK_LENGTH);
    forall b: nat | b < |v.counts| && Pack(k, b * STANDARD_BLOCK_LENGTH) == key
      ensures k == piece && b == block
    {
      PackInjective(c, piece, block, k, b);
    }
  }

  function OneLess(s: State, piece: nat, block: nat): State
    requires piece in s.active ==> block < |s.active[piece].counts|
  {
    if piece in s.active && s.active[piece].counts[block] > 0 then
      var v := s.active[piece];
      s.(active := s.active[piece := v.(counts := v.counts[block := v.counts[block] - 1])])
    else s
  }

  lemma ForgottenAt(c: Config, s: State, piece: nat, block: nat, k: nat)
    requires c.Valid() && ActivesOk(c, s.pieceSet, s.active) && piece < c.t.totalPieces && block < c.t.BlockCount(piece)
    requires k in s.active
    ensures piece in s.active ==> block < |s.active[piece].counts|
    ensures LessAskedAll(s.active, {Pack(piece, block * STANDARD_BLOCK_LENGTH)})[k]
         == OneLess(s, piece, block).active[k]
  {
    assert piece in s.active ==> ActiveOk(c, s.pieceSet, piece, s.active[piece]);
    assert ActiveOk(c, s.pieceSet, k, s.active[k]);
    ForgetsOne(c, s.pieceSet, piece, block, k, s.active[k]);
  }

  lemma OneLessFrame(c: Config, s: State, piece: nat, block: nat)
    requires c.Valid() && ActivesOk(c, s.pieceSet, s.active) && piece < c.t.totalPieces && block < c.t.BlockCount(piece)
    ensures piece in s.active ==> block < |s.active[piece].counts|
    ensures var s' := OneLess(s, piece, block);
            s'.active.Keys == s.active.Keys && s' == s.(active := s'.active)
  {
    assert piece in s.active ==> ActiveOk(c, s.pieceSet, piece, s.active[piece]);
  }

  lemma ForgottenOne(c: Config, s: State, piece: nat, block: nat)
    requires c.Valid() && ActivesOk(c, s.pieceSet, s.active) && piece < c.t.totalPieces && block < c.t.BlockCount(piece)
    ensures piece in s.active ==> block < |s.active[piece].counts|
    ensures Forgotten(s, {Pack(piece, block * STANDARD_BLOCK_LENGTH)}) == OneLess(s, piece, block)
  {
    hide LessAsked, ActivesOk, OneLess, Pack;
    var keys := {Pack(piece, block * STANDARD_BLOCK_LENGTH)};
    OneLessFrame(c, s, piece, block);
    forall k | k in s.active
      ensures LessAskedAll(s.active, keys)[k] == OneLess(s, piece, block).active[k]
    {
      ForgottenAt(c, s, piece, block, k);
    }
    assert LessAskedAll(s.active, keys) == OneLess(s, piece, block).active;
  }

  ghost predicate Written(c: Config, s: State, piece: nat, content: seq<byte>, flat: seq<byte>,
                          boxes: map<nat, seq<byte>>) {
    && c.t.Start(piece) + |content| <= |s.flat|
    && flat == Splice(s.flat, c.t.Start(piece), content)
    && CacheKeeps(c, boxes, s.boxes[piece := content])
  }

  /** What the cache may hold after a write. */
  lemma WrittenBoxes(c: Config, s: State, piece: nat, content: seq<byte>, flat: seq<byte>, boxes: map<nat, seq<byte>>)
    requires StoreSound(c, s)
    requires piece < c.t.totalPieces && |content| == c.t.PieceLength(piece)
    requires c.t.Start(piece) + |content| <= |s.flat| && flat == Splice(s.flat, c.t.Start(piece), content)
    requires !c.cached ==> boxes == map[]
    requires forall i | i in boxes ::
      i < c.t.totalPieces && boxes[i] == c.t.Slice(flat, i) && (i in s.boxes || i == piece)
    ensures Written(c, s, piece, content, flat, boxes)
  {
    forall i | i in boxes
      ensures i in s.boxes[piece := content] && boxes[i] == s.boxes[piece := content][i]
    {
      c.t.SliceAfterWrite(s.flat, piece, content, i);
    }
  }

  /** One more piece: what the counters become. */
  function Counted(c: Config, s: State, piece: nat, length: nat): State {
    s.(pieceSet := s.pieceSet + {piece}, goodPieces := s.goodPieces + 1, left := Uint64Minus(s.left, length),
       saved := Saved(c, s.pieceSet + {piece}, s.saved))
  }

  /** What becomes of a complete piece. */
  ghost predicate Finishes(c: Config, s: State, a: Address, piece: nat, s': State)
    requires c.Valid() && |s.flat| == c.t.totalSize && piece in s.active && piece < c.t.totalPieces && a in s.peers
    requires |s.active[piece].buffer| == c.t.PieceLength(piece)
  {
    c.t.PieceBounds(piece);
    var content := s.active[piece].buffer;
    if !c.t.Good(content, piece) then s' == Refused(s, a, piece)
    else CacheKeeps(c, s'.boxes, s.boxes[piece := content]) && s' == Stored(c, s, piece).(boxes := s'.boxes)
  }

  /** The piece is written, counted and announced. */
  ghost predicate StoresPiece(c: Config, s: State, piece: nat, content: seq<byte>, s': State) {
    && c.t.Start(piece) + |content| <= |s.flat|
    && CacheKeeps(c, s'.boxes, s.boxes[piece := content])
    && s' == Counted(c, s, piece, |content|)
             .(flat := Splice(s.flat, c.t.Start(piece), content), boxes := s'.boxes, peers := Announced(s.peers, piece))
  }

  lemma GoodFinishes(c: Config, s: State, a: Address, piece: nat, s': State)
    requires c.Valid() && |s.flat| == c.t.totalSize && piece in s.active && piece < c.t.totalPieces && a in s.peers
    requires |s.active[piece].buffer| == c.t.PieceLength(piece) && c.t.Good(s.active[piece].buffer, piece)
    requires StoresPiece(c, s.(active := s.active - {piece}), piece, s.active[piece].buffer, s')
    ensures Finishes(c, s, a, piece, s')
  {
  }

  lemma BadFinishes(c: Config, s: State, a: Address, piece: nat)
    requires c.Valid() && |s.flat| == c.t.totalSize && piece in s.active && piece < c.t.totalPieces && a in s.peers
    requires |s.active[piece].buffer| == c.t.PieceLength(piece) && !c.t.Good(s.active[piece].buffer, piece)
    ensures var s1 := s.(active := s.active - {piece});
            a in s1.peers && Finishes(c, s, a, piece, WithPeer(s1, a, s1.peers[a].(closed := true)))
  {
  }

  /** An active piece is not stored yet, and marking a block changes neither the store nor any buffer. */
  lemma Recordable(c: Config, s: State, a: Address, piece: nat, begin: nat)
    requires Sound(c, s) && a in s.peers && piece in s.active
    requires begin / STANDARD_BLOCK_LENGTH < |s.active[piece].counts|
    ensures piece !in s.pieceSet && piece < c.t.totalPieces && |s.active[piece].buffer| == c.t.PieceLength(piece)
    ensures c.Valid() && |s.flat| == c.t.totalSize
    ensures var m := Marked(c, s, a, piece, begin);
            && m.active.Keys == s.active.Keys && m.active[piece].buffer == s.active[piece].buffer
            && m.pieceSet == s.pieceSet && m.flat == s.flat && m.boxes == s.boxes && StoreSound(c, m)
            && a in m.peers && (LastMissing(s, piece, begin) <==> Complete(m.active[piece].counts))
  {
    assert ActiveOk(c, s.pieceSet, piece, s.active[piece]);
  }

  lemma Recorded(c: Config, s: State, a: Address, piece: nat, begin: nat, s': State)
    requires c.Valid() && |s.flat| == c.t.totalSize && a in s.peers && piece in s.active && piece < c.t.totalPieces
    requires |s.active[piece].buffer| == c.t.PieceLength(piece)
    requires begin / STANDARD_BLOCK_LENGTH < |s.active[piece].counts|
    requires var m := Marked(c, s, a, piece, begin);
             if Complete(m.active[piece].counts) then Finishes(c, m, a, piece, s') else s' == m
    ensures SessionState.RecordBlock(c, s, a, piece, begin, s')
  {
  }

  ghost predicate Answers(c: Config, s: State, a: Address, piece: nat, begin: nat, length: nat, s': State) {
    && c.Valid() && |s.flat| == c.t.totalSize && a in s.peers && piece < c.t.totalPieces
    && SessionState.SendRequest(c, s, a, piece, begin, length, s')
  }

  lemma ChokedSend(c: Config, s: State, a: Address, piece: nat, begin: nat, length: nat)
    requires c.Valid() && |s.flat| == c.t.totalSize && a in s.peers && piece < c.t.totalPieces
    ensures s.peers[a].amChoking ==> Answers(c, s, a, piece, begin, length, s)
  {
  }

  /** What the cache may hold after a piece was read. */
  ghost predicate BoxesStored(c: Config, s: State, piece: nat, boxes: map<nat, seq<byte>>) {
    && c.Valid() && |s.flat| == c.t.totalSize && (!c.cached ==> boxes == map[])
    && forall i | i in boxes :: i < c.t.totalPieces && boxes[i] == c.t.Slice(s.flat, i) && (i in s.boxes || i == piece)
  }

  lemma BlockSent(c: Config, s: State, a: Address, piece: nat, begin: nat, length: nat,
                  header: seq<byte>, buf: seq<byte>, boxes: map<nat, seq<byte>>)
    requires StoreSound(c, s) && a in s.peers && !s.peers[a].amChoking && piece < c.t.totalPieces
    requires BoxesStored(c, s, piece, boxes)
    requires header == [PIECE] + Wire(piece) + Wire(begin)
    requires buf == header + PaddedRead(s.flat, c.t.Start(piece) + begin, length)
    ensures var s' := WithPeer(s, a, Send(s.peers[a], buf)).(flat := s.flat, boxes := boxes);
            Answers(c, s, a, piece, begin, length, s')
  {
    assert buf == PieceMessage(piece, begin, PaddedRead(s.flat, c.t.Start(piece) + begin, length));
  }

  // ---- Choking ----

  function Elements(order: seq<Address>): (r: set<Address>)
    ensures forall a :: a in r <==> a in order
  {
    set a | a in order
  }

  lemma {:induction false} ElementCount(order: seq<Address>)
    requires NoDuplicates(order)
    ensures |Elements(order)| == |order|
  {
    if order != [] {
      var n := |order| - 1;
      ElementCount(order[..n]);
      assert order == order[..n] + [order[n]];
      assert Elements(order) == Elements(order[..n]) + {order[n]};
    }
  }

  /** The addresses of all interested peers, each once. */
  ghost predicate Ranks(peers: map<Address, Peer>, order: seq<Address>) {
    NoDuplicates(order) && Elements(order) == InterestedPeers(peers)
  }

  /** Unchoking the first n in the list and choking the others is what choking is meant to do. */
  lemma FirstChosen(s: State, order: seq<Address>, n: nat)
    requires Ranks(s.peers, order) && n == Min(UPLOAD_SLOTS, |order|)
    ensures SessionState.ChokePeers(s, s.(peers := Rechoked(s.peers, Elements(order[..n]))))
  {
    ElementCount(order);
    ElementCount(order[..n]);
  }

  lemma NextRechoked(peers: map<Address, Peer>, order: seq<Address>, n: nat, i: nat)
    requires Ranks(peers, order) && n <= |order| && i < |order|
    ensures order[i] in peers && order[i] !in Elements(order[..i])
    ensures Rechoked(peers, Elements(order[..n]))[order[i]] == SetChoke(peers[order[i]], i >= n)
    ensures Elements(order[..i + 1]) == Elements(order[..i]) + {order[i]}
  {
    assert order[i] in Elements(order);
    assert order[..i + 1] == order[..i] + [order[i]];
    assert order[i] in order[..n] <==> i < n;
  }

  lemma RechokedKeys(peers: map<Address, Peer>, chosen: set<Address>)
    ensures Rechoked(peers, chosen).Keys == peers.Keys
  {
  }

  lemma AllRechoked(peers: map<Address, Peer>, order: seq<Address>, n: nat)
    requires Ranks(peers, order) && n <= |order|
    ensures Partly(peers, Rechoked(peers, Elements(order[..n])), Elements(order))
         == Rechoked(peers, Elements(order[..n]))
  {
    PartlyAll(peers, Rechoked(peers, Elements(order[..n])), Elements(order));
  }

  // ---- Messages ----

  /** What generalMessage does with a message: an error leaves the state alone, a crash is foreseen by Crashes,
      and anything else has the effect of the message. */
  ghost predicate Handled(c: Config, s: State, a: Address, m: seq<byte>, now: int, outcome: Outcome, s': State) {
    && Sound(c, s) && a in s.peers && m != []
    && (forall k | k in s.active :: ActiveOk(c, s.pieceSet, k, s.active[k]))
    && match outcome {
         case Fail(error) => CheckMessage(c, s, s.peers[a], m) == Some(error) && s' == s
         case Crash => CheckMessage(c, s, s.peers[a], m) == None && Crashes(c, s, s.peers[a], m)
         case Proceed =>
           && CheckMessage(c, s, s.peers[a], m) == None && !Crashes(c, s, s.peers[a], m)
           && Effect(c, s, a, m, now, s')
       }
  }

  /** A message for a peer that we know, in a state that satisfies the invariant. */
  ghost predicate Arrives(c: Config, s: State, a: Address, m: seq<byte>) {
    Sound(c, s) && a in s.peers && m != []
  }

  lemma ArrivesSound(c: Config, s: State, a: Address, m: seq<byte>)
    requires Arrives(c, s, a, m)
    ensures Sound(c, s) && a in s.peers && c.Valid() && m != []
  {
  }

  lemma IsArrival(c: Config, s: State, a: Address, m: seq<byte>)
    requires Sound(c, s) && a in s.peers && m != []
    ensures Arrives(c, s, a, m)
  {
  }

  lemma Fails(c: Config, s: State, a: Address, m: seq<byte>, now: int, error: MessageError)
    requires Arrives(c, s, a, m) && CheckMessage(c, s, s.peers[a], m) == Some(error)
    ensures Handled(c, s, a, m, now, Fail(error), s)
  {
    hide CheckMessage, Effect, Crashes;
  }

  /** The state is fit for the effect of a message. */
  ghost predicate EffectReady(c: Config, s: State) {
    && c.Valid() && |s.flat| == c.t.totalSize
    && forall k | k in s.active ::
         |s.active[k].buffer| == c.t.PieceLength(k) && |s.active[k].counts| == c.t.BlockCount(k)
  }

  lemma ArrivesReady(c: Config, s: State, a: Address, m: seq<byte>)
    requires Arrives(c, s, a, m)
    ensures EffectReady(c, s) && a in s.peers && m != []
  {
    forall k | k in s.active
      ensures ActiveOk(c, s.pieceSet, k, s.active[k])
    {
      assert ActiveOk(c, s.pieceSet, k, s.active[k]);
    }
  }

  /** The message passes all checks and has its effect. */
  ghost predicate Acts(c: Config, s: State, a: Address, m: seq<byte>, now: int, s': State) {
    && EffectReady(c, s) && a in s.peers && m != []
    && CheckMessage(c, s, s.peers[a], m) == None && !Crashes(c, s, s.peers[a], m) && Effect(c, s, a, m, now, s')
  }

  lemma Proceeds(c: Config, s: State, a: Address, m: seq<byte>, now: int, s': State)
    requires Arrives(c, s, a, m) && Acts(c, s, a, m, now, s')
    ensures Handled(c, s, a, m, now, Proceed, s')
  {
    hide CheckMessage, Effect, Crashes;
  }

  /** The message passes all checks and the program panics. */
  ghost predicate Panics(c: Config, s: State, a: Address, m: seq<byte>) {
    a in s.peers && m != [] && CheckMessage(c, s, s.peers[a], m) == None && Crashes(c, s, s.peers[a], m)
  }

  lemma PanicHandled(c: Config, s: State, a: Address, m: seq<byte>, now: int, s': State)
    requires Arrives(c, s, a, m) && Panics(c, s, a, m)
    ensures Handled(c, s, a, m, now, Crash, s')
  {
    hide CheckMessage, Effect, Crashes;
  }

  lemma WrongLength(c: Config, s: State, a: Address, m: seq<byte>, now: int)
    requires Arrives(c, s, a, m)
    requires (m[0] <= NOT_INTERESTED && |m| != 1) || (m[0] == HAVE && |m| != 5) || (m[0] == PORT && |m| != 3)
    ensures Handled(c, s, a, m, now, Fail(UnexpectedLength), s)
  {
    hide Handled, Sound;
    Fails(c, s, a, m, now, UnexpectedLength);
  }

  lemma ChokeHandled(c: Config, s: State, a: Address, m: seq<byte>, now: int)
    requires Arrives(c, s, a, m) && m[0] == CHOKE && |m| == 1
    ensures Handled(c, s, a, m, now, Proceed, Late(SessionState.DoChoke(s, a), a))
  {
    hide Handled, Sound;
    ArrivesReady(c, s, a, m);
    Proceeds(c, s, a, m, now, Late(SessionState.DoChoke(s, a), a));
  }

  lemma UnchokedSound(c: Config, s: State, a: Address)
    requires Sound(c, s) && a in s.peers
    ensures Sound(c, WithPeer(s, a, s.peers[a].(peerChoking := false)))
  {
    assert PeerOk(c, s.pieceSet, s.peers[a]);
    ReplacePeer(c, s, a, s.peers[a].(peerChoking := false));
  }

  /** One more request is made, and the invariant holds. */
  ghost predicate Requests(c: Config, s: State, a: Address, now: int, s': State) {
    a in s.peers && a in s'.peers && Sound(c, s) && Sound(c, s') && s'.flat == s.flat && s'.boxes == s.boxes
    && SessionState.RequestBlock(c, s, a, now, s')
  }

  lemma RequestsBlock(c: Config, s: State, a: Address, now: int, s': State)
    requires Sound(c, s) && a in s.peers && SessionState.RequestBlock(c, s, a, now, s')
    ensures Requests(c, s, a, now, s')
  {
    RequestBlockKeeps(c, s, a, now, s');
    RequestBlockFrame(c, s, a, now, s');
  }

  lemma RequestsFrame(c: Config, s: State, a: Address, now: int, s1: State, s2: State)
    requires Requests(c, s, a, now, s1) && Requests(c, s1, a, now, s2)
    ensures s2.flat == s.flat && s2.boxes == s.boxes && a in s2.peers
  {
  }

  lemma UnchokeHandled(c: Config, s: State, a: Address, m: seq<byte>, now: int, s1: State, s2: State)
    requires Arrives(c, s, a, m) && m[0] == UNCHOKE && |m| == 1
    requires Requests(c, WithPeer(s, a, s.peers[a].(peerChoking := false)), a, now, s1) && Requests(c, s1, a, now, s2)
    ensures Handled(c, s, a, m, now, Proceed, Late(s2, a))
  {
    hide Handled, Sound, Unchoke, Requests, SessionState.RequestBlock;
    UnchokeEffect(c, s, a, now, s1, s2);
    ArrivesReady(c, s, a, m);
    Proceeds(c, s, a, m, now, Late(s2, a));
  }

  lemma UnchokeEffect(c: Config, s: State, a: Address, now: int, s1: State, s2: State)
    requires a in s.peers && Requests(c, WithPeer(s, a, s.peers[a].(peerChoking := false)), a, now, s1)
    requires Requests(c, s1, a, now, s2)
    ensures a in s2.peers && Unchoke(c, s, a, now, Late(s2, a))
  {
  }

  lemma InterestEffect(s: State, a: Address, interested: bool, s1: State)
    requires a in s.peers && SessionState.ChokePeers(WithPeer(s, a, s.peers[a].(peerInterested := interested)), s1)
    requires a in s1.peers
    ensures PeerInterest(s, a, interested, Late(s1, a))
  {
  }

  lemma HaveHandled(c: Config, s: State, a: Address, m: seq<byte>, now: int)
    requires Arrives(c, s, a, m) && m[0] == HAVE && |m| == 5
    ensures if Field(m, 1) < c.t.totalPieces
            then Handled(c, s, a, m, now, Proceed, Late(WithPeer(s, a, HasPiece(s, s.peers[a], Field(m, 1))), a))
            else Handled(c, s, a, m, now, Fail(HaveOutOfRange), s)
  {
    hide Handled, Sound;
    ArrivesReady(c, s, a, m);
    if Field(m, 1) < c.t.totalPieces {
      Proceeds(c, s, a, m, now, Late(WithPeer(s, a, HasPiece(s, s.peers[a], Field(m, 1))), a));
    } else {
      Fails(c, s, a, m, now, HaveOutOfRange);
    }
  }

  lemma BadBitfield(c: Config, s: State, a: Address, m: seq<byte>, now: int)
    requires Arrives(c, s, a, m) && m[0] == BITFIELD
    ensures !s.peers[a].canReceiveBitfield ==> Handled(c, s, a, m, now, Fail(LateBitfield), s)
    ensures s.peers[a].canReceiveBitfield && Bitsets.Decode(c.t.totalPieces, m[1..]) == None
            ==> Handled(c, s, a, m, now, Fail(InvalidBitfield), s)
  {
    hide Handled, Sound, Bitsets.Decode;
    if !s.peers[a].canReceiveBitfield {
      Fails(c, s, a, m, now, LateBitfield);
    } else if Bitsets.Decode(c.t.totalPieces, m[1..]) == None {
      Fails(c, s, a, m, now, InvalidBitfield);
    }
  }

  lemma BitfieldHandled(c: Config, s: State, a: Address, m: seq<byte>, now: int, pieces: set<nat>)
    requires Arrives(c, s, a, m) && m[0] == BITFIELD && s.peers[a].canReceiveBitfield
    requires Bitsets.Decode(c.t.totalPieces, m[1..]) == Some(pieces)
    ensures Handled(c, s, a, m, now, Proceed, Late(WithPeer(s, a, HasPieces(s, s.peers[a], pieces)), a))
  {
    hide Bitsets.Decode;
    hide Handled, Sound;
    ArrivesReady(c, s, a, m);
    Proceeds(c, s, a, m, now, Late(WithPeer(s, a, HasPieces(s, s.peers[a], pieces)), a));
  }

  lemma HasFirst(c: Config, s: State, a: Address, m: seq<byte>)
    requires Arrives(c, s, a, m)
    ensures |m| >= 1
  {
  }

  lemma ExtensionCrashes(c: Config, s: State, a: Address, m: seq<byte>, now: int)
    requires Arrives(c, s, a, m) && m[0] == EXTENSION && |m| == 1
    ensures Handled(c, s, a, m, now, Crash, s)
  {
    hide Handled, Sound, CheckSpan, Bitsets.Decode;
    PanicHandled(c, s, a, m, now, s);
  }

  lemma ExtensionHandled(c: Config, s: State, a: Address, m: seq<byte>, now: int)
    requires Arrives(c, s, a, m) && m[0] == EXTENSION && |m| > 1
    ensures Handled(c, s, a, m, now, Proceed, WithPeer(s, a, Send(s.peers[a], BitfieldMessage(c, s.pieceSet))))
  {
    hide BitfieldMessage, CheckPieceMessage, CheckOurBlock, CheckSpan, Bitsets.Decode;
    hide Handled, Sound;
    ArrivesReady(c, s, a, m);
    Proceeds(c, s, a, m, now, WithPeer(s, a, Send(s.peers[a], BitfieldMessage(c, s.pieceSet))));
  }

  lemma PortHandled(c: Config, s: State, a: Address, m: seq<byte>, now: int)
    requires Arrives(c, s, a, m) && m[0] == PORT && |m| == 3
    ensures Handled(c, s, a, m, now, Proceed, Late(s, a))
  {
    hide Handled, Sound;
    ArrivesReady(c, s, a, m);
    Proceeds(c, s, a, m, now, Late(s, a));
  }

  lemma UnknownHandled(c: Config, s: State, a: Address, m: seq<byte>, now: int)
    requires Arrives(c, s, a, m) && m[0] > PORT && m[0] != EXTENSION
    ensures Handled(c, s, a, m, now, Fail(UnknownMessage), s)
  {
    hide Handled, Sound;
    Fails(c, s, a, m, now, UnknownMessage);
  }

  lemma PassedOurs(c: Config, s: State, m: seq<byte>)
    requires CheckOurBlock(c, s, m) == None
    ensures |m| == 13 && Field(m, 1) < c.t.totalPieces && Field(m, 1) in s.pieceSet
    ensures Field(m, 5) < c.t.pieceLength && Field(m, 5) + Field(m, 9) <= c.t.pieceLength
  {
  }

  lemma BadRequest(c: Config, s: State, a: Address, m: seq<byte>, now: int, error: MessageError)
    requires Arrives(c, s, a, m) && m[0] == REQUEST && CheckOurBlock(c, s, m) == Some(error)
    ensures Handled(c, s, a, m, now, Fail(error), s)
  {
    hide Handled, Sound;
    Fails(c, s, a, m, now, error);
  }

  /** Whether the answer to a request can be read. */
  ghost predicate CanAnswer(c: Config, s: State, a: Address, m: seq<byte>)
    requires |m| == 13
  {
    a in s.peers
    && (|| s.peers[a].amChoking || !c.cached || Field(m, 9) == 0
        || Field(m, 5) + Field(m, 9) <= c.t.PieceLength(Field(m, 1)))
  }

  lemma RequestHandled(c: Config, s: State, a: Address, m: seq<byte>, now: int, s': State)
    requires Arrives(c, s, a, m) && m[0] == REQUEST && CheckOurBlock(c, s, m) == None && |m| == 13
    requires CanAnswer(c, s, a, m) && Answers(c, s, a, Field(m, 1), Field(m, 5), Field(m, 9), s')
    ensures Handled(c, s, a, m, now, Proceed, s')
  {
    hide Handled, Sound;
    ArrivesReady(c, s, a, m);
    Proceeds(c, s, a, m, now, s');
  }

  lemma RequestCrashes(c: Config, s: State, a: Address, m: seq<byte>, now: int, s': State)
    requires Arrives(c, s, a, m) && m[0] == REQUEST && CheckOurBlock(c, s, m) == None && |m| == 13
    requires !CanAnswer(c, s, a, m)
    ensures Handled(c, s, a, m, now, Crash, s')
  {
    hide Handled, Sound, CheckSpan, Bitsets.Decode;
    PanicHandled(c, s, a, m, now, s');
  }

  lemma BadPiece(c: Config, s: State, a: Address, m: seq<byte>, now: int, error: MessageError)
    requires Arrives(c, s, a, m) && m[0] == PIECE && CheckPieceMessage(c, s, m) == Some(error)
    ensures Handled(c, s, a, m, now, Fail(error), s)
  {
    hide Handled, Sound;
    Fails(c, s, a, m, now, error);
  }

  lemma HeldPieceHandled(c: Config, s: State, a: Address, m: seq<byte>, now: int)
    requires Arrives(c, s, a, m) && m[0] == PIECE && CheckPieceMessage(c, s, m) == None && |m| >= 9
    requires Field(m, 1) in s.pieceSet
    ensures Handled(c, s, a, m, now, Proceed, Late(s, a))
  {
    hide Handled, Sound;
    ArrivesReady(c, s, a, m);
    Proceeds(c, s, a, m, now, Late(s, a));
  }

  /** The block starts inside the buffer of its piece. */
  ghost predicate InBuffer(c: Config, m: seq<byte>)
    requires |m| >= 9
  {
    Field(m, 5) <= c.t.PieceLength(Field(m, 1)) && Field(m, 5) / STANDARD_BLOCK_LENGTH < c.t.BlockCount(Field(m, 1))
  }

  /** The block completes a piece for which the torrent gives no hash. */
  ghost predicate Hashless(c: Config, s: State, m: seq<byte>)
    requires |m| >= 9
  {
    LastMissing(s, Field(m, 1), Field(m, 5)) && !c.t.HasHash(Field(m, 1))
  }

  lemma PieceCrashes(c: Config, s: State, a: Address, m: seq<byte>, now: int, s': State)
    requires Arrives(c, s, a, m) && m[0] == PIECE && CheckPieceMessage(c, s, m) == None && |m| >= 9
    requires Field(m, 1) !in s.pieceSet
    requires !InBuffer(c, m) || Hashless(c, s, m)
    ensures Handled(c, s, a, m, now, Crash, s')
  {
    hide Handled, Sound, CheckSpan, Bitsets.Decode, LastMissing;
    PanicHandled(c, s, a, m, now, s');
  }

  lemma PassedPiece(c: Config, s: State, m: seq<byte>)
    requires CheckPieceMessage(c, s, m) == None
    ensures |m| >= 9 && Field(m, 1) < c.t.totalPieces
    ensures Field(m, 1) !in s.pieceSet ==> Field(m, 1) in s.active
  {
  }

  /** The block of an active piece, and what is recorded and requested after it. */
  ghost predicate RecordsAndRequests(c: Config, s: State, a: Address, m: seq<byte>, now: int, s1: State, s2: State) {
    Records(c, s, a, m, s1) && Requests(c, s1, a, now, s2)
  }

  ghost predicate Records(c: Config, s: State, a: Address, m: seq<byte>, s1: State) {
    && Sound(c, s) && Sound(c, s1) && a in s.peers
    && |m| >= 9 && Field(m, 1) in s.active && Field(m, 1) < c.t.totalPieces
    && |s.active[Field(m, 1)].buffer| == c.t.PieceLength(Field(m, 1)) && Field(m, 5) <= c.t.PieceLength(Field(m, 1))
    && Field(m, 5) / STANDARD_BLOCK_LENGTH < |s.active[Field(m, 1)].counts|
    && SessionState.RecordBlock(c, Copied(s, Field(m, 1), Field(m, 5), m[9..]), a, Field(m, 1), Field(m, 5), s1)
  }

  lemma FitsBuffer(c: Config, s: State, m: seq<byte>)
    requires Sound(c, s) && |m| >= 9 && InBuffer(c, m) && Field(m, 1) in s.active
    ensures Field(m, 1) < c.t.totalPieces
    ensures Field(m, 5) <= |s.active[Field(m, 1)].buffer| == c.t.PieceLength(Field(m, 1))
    ensures Field(m, 5) / STANDARD_BLOCK_LENGTH < |s.active[Field(m, 1)].counts| && |s.flat| == c.t.totalSize
    ensures c.Valid()
  {
    ActiveShape(c, s, Field(m, 1));
  }

  /** Copying a block changes no count. */
  lemma HashlessCopied(c: Config, s: State, m: seq<byte>)
    requires |m| >= 9 && Field(m, 1) in s.active && Field(m, 5) <= |s.active[Field(m, 1)].buffer|
    ensures var piece, begin := Field(m, 1), Field(m, 5);
            Hashless(c, s, m) <==> LastMissing(Copied(s, piece, begin, m[9..]), piece, begin) && !c.t.HasHash(piece)
  {
  }

  lemma RecordsSound(c: Config, s: State, a: Address, m: seq<byte>, s1: State)
    requires Records(c, s, a, m, s1)
    ensures Sound(c, s1)
  {
  }

  lemma IsInBuffer(c: Config, m: seq<byte>)
    requires |m| >= 9
    ensures InBuffer(c, m) <==> Field(m, 5) <= c.t.PieceLength(Field(m, 1))
                                && Field(m, 5) / STANDARD_BLOCK_LENGTH < c.t.BlockCount(Field(m, 1))
  {
  }

  lemma RecordsBlock(c: Config, s: State, a: Address, m: seq<byte>, s1: State)
    requires Sound(c, s) && a in s.peers && |m| >= 9 && InBuffer(c, m) && Field(m, 1) in s.active
    requires Field(m, 1) < c.t.totalPieces
    requires Field(m, 5) <= |s.active[Field(m, 1)].buffer| == c.t.PieceLength(Field(m, 1))
    requires Field(m, 5) / STANDARD_BLOCK_LENGTH < |s.active[Field(m, 1)].counts| && |s.flat| == c.t.totalSize
    requires c.Valid()
    requires SessionState.RecordBlock(c, Copied(s, Field(m, 1), Field(m, 5), m[9..]), a, Field(m, 1), Field(m, 5), s1)
    ensures Records(c, s, a, m, s1)
  {
    RecordedSound(c, s, a, m, s1);
  }

  lemma ReceiveEffect(c: Config, s: State, a: Address, m: seq<byte>, now: int, s1: State, s2: State)
    requires RecordsAndRequests(c, s, a, m, now, s1, s2)
    ensures a in s2.peers && ReceivePiece(c, s, a, Field(m, 1), Field(m, 5), m[9..], now, Late(s2, a))
  {
  }

  lemma RecordedSound(c: Config, s: State, a: Address, m: seq<byte>, s1: State)
    requires Sound(c, s) && a in s.peers && |m| >= 9 && Field(m, 1) in s.active && Field(m, 1) < c.t.totalPieces
    requires |s.active[Field(m, 1)].buffer| == c.t.PieceLength(Field(m, 1))
    requires Field(m, 5) <= c.t.PieceLength(Field(m, 1))
    requires Field(m, 5) / STANDARD_BLOCK_LENGTH < |s.active[Field(m, 1)].counts|
    requires SessionState.RecordBlock(c, Copied(s, Field(m, 1), Field(m, 5), m[9..]), a, Field(m, 1), Field(m, 5), s1)
    ensures Sound(c, Copied(s, Field(m, 1), Field(m, 5), m[9..])) && Sound(c, s1)
  {
    var s0 := Copied(s, Field(m, 1), Field(m, 5), m[9..]);
    CopiedKeeps(c, s, Field(m, 1), Field(m, 5), m[9..]);
    RecordBlockKeeps(c, s0, a, Field(m, 1), Field(m, 5), s1);
  }

  lemma CopiedSound(c: Config, s: State, piece: nat, begin: nat, data: seq<byte>)
    requires Sound(c, s) && piece in s.active && begin <= |s.active[piece].buffer|
    ensures Sound(c, Copied(s, piece, begin, data))
  {
    CopiedKeeps(c, s, piece, begin, data);
  }

  lemma SoundStore(c: Config, s: State)
    requires Sound(c, s)
    ensures StoreSound(c, s)
  {
  }

  lemma ActiveShape(c: Config, s: State, piece: nat)
    requires Sound(c, s) && piece in s.active
    ensures piece < c.t.totalPieces && |s.active[piece].buffer| == c.t.PieceLength(piece)
    ensures |s.active[piece].counts| == c.t.BlockCount(piece)
  {
    assert ActiveOk(c, s.pieceSet, piece, s.active[piece]);
  }

  lemma InBufferFits(c: Config, s: State, p: Peer, m: seq<byte>)
    requires m != [] && |m| >= 9 && m[0] == PIECE && InBuffer(c, m) && !Hashless(c, s, m)
    ensures !Crashes(c, s, p, m)
  {
    hide CheckPieceMessage, LastMissing;
  }

  lemma ReceiveHandled(c: Config, s: State, a: Address, m: seq<byte>, now: int, s1: State, s2: State)
    requires Arrives(c, s, a, m) && m[0] == PIECE && CheckPieceMessage(c, s, m) == None && |m| >= 9
    requires Field(m, 1) !in s.pieceSet
    requires InBuffer(c, m) && !Hashless(c, s, m) && RecordsAndRequests(c, s, a, m, now, s1, s2)
    ensures Handled(c, s, a, m, now, Proceed, Late(s2, a))
  {
    hide Handled, Sound, ReceivePiece, Requests;
    hide SessionState.RecordBlock, RecordsAndRequests, CheckPieceMessage, CheckOurBlock, CheckSpan;
    hide InBuffer, Hashless, Crashes;
    InBufferFits(c, s, s.peers[a], m);
    ReceiveEffect(c, s, a, m, now, s1, s2);
    ArrivesReady(c, s, a, m);
    Proceeds(c, s, a, m, now, Late(s2, a));
  }

  lemma BadCancel(c: Config, s: State, a: Address, m: seq<byte>, now: int, error: MessageError)
    requires Arrives(c, s, a, m) && m[0] == CANCEL
    requires CheckOurBlock(c, s, m) == Some(error)
          || (&& CheckOurBlock(c, s, m) == None && |m| == 13
              && Field(m, 9) != STANDARD_BLOCK_LENGTH && error == UnexpectedBlockLength)
    ensures Handled(c, s, a, m, now, Fail(error), s)
  {
    hide Handled, Sound;
    Fails(c, s, a, m, now, error);
  }

  lemma CancelHandled(c: Config, s: State, a: Address, m: seq<byte>, now: int)
    requires Arrives(c, s, a, m) && m[0] == CANCEL && CheckOurBlock(c, s, m) == None
    requires |m| == 13 && Field(m, 9) == STANDARD_BLOCK_LENGTH
    ensures Handled(c, s, a, m, now, Proceed, Late(s, a))
  {
    hide Handled, Sound;
    ArrivesReady(c, s, a, m);
    Proceeds(c, s, a, m, now, Late(s, a));
  }

  lemma InterestHandled(c: Config, s: State, a: Address, m: seq<byte>, now: int, interested: bool, s1: State)
    requires Arrives(c, s, a, m) && m[0] == (if interested then INTERESTED else NOT_INTERESTED) && |m| == 1
    requires SessionState.ChokePeers(WithPeer(s, a, s.peers[a].(peerInterested := interested)), s1) && a in s1.peers
    ensures Handled(c, s, a, m, now, Proceed, Late(s1, a))
  {
    hide Handled, Sound, PeerInterest, SessionState.ChokePeers;
    InterestEffect(s, a, interested, s1);
    ArrivesReady(c, s, a, m);
    Proceeds(c, s, a, m, now, Late(s1, a));
  }

  lemma ChokeUnfolds(s: State, a: Address)
    requires a in s.peers
    ensures var s1 := WithPeer(s, a, s.peers[a].(peerChoking := true));
            && a in s1.peers
            && WithPeer(Forgotten(s1, s1.peers[a].ourRequests.Keys), a, s1.peers[a].(ourRequests := map[]))
               == SessionState.DoChoke(s, a)
  {
    var s1 := WithPeer(s, a, s.peers[a].(peerChoking := true));
    var p := s.peers[a].(peerChoking := true, ourRequests := map[]);
    assert s.peers[a := s.peers[a].(peerChoking := true)][a := p] == s.peers[a := p];
  }

  // ---- Events of the main loop ----

  lemma CloseUnfolds(s: State, a: Address)
    requires a in s.peers
    ensures var s1 := WithPeer(Forgotten(s, s.peers[a].ourRequests.Keys), a, s.peers[a].(ourRequests := map[]));
            s1.(peers := s1.peers - {a}) == SessionState.ClosePeer(s, a)
  {
    assert s.peers[a := s.peers[a].(ourRequests := map[])] - {a} == s.peers - {a};
  }

  /** A message that was handled is a step of the session, once a failure has closed the connection. */
  lemma HandledIsStep(c: Config, s: State, a: Address, m: seq<byte>, now: int, outcome: Outcome, s': State)
    requires Handled(c, s, a, m, now, outcome, s') && !outcome.Crash?
    ensures a in s.peers && Sound(c, s)
    ensures SessionRun.Step(c, s, SessionRun.Message(a, Some(m), now),
                            if outcome.Fail? then SessionState.ClosePeer(s, a) else s')
  {
    hide Effect, SessionState.ClosePeer, CheckMessage, Crashes;
  }

  lemma EndIsStep(c: Config, s: State, a: Address, m: Option<seq<byte>>, now: int)
    requires Sound(c, s) && a in s.peers && (m.Some? ==> m.value == [])
    ensures SessionRun.Step(c, s, SessionRun.Message(a, m, now), if m.None? then SessionState.ClosePeer(s, a) else s)
  {
    hide Effect, SessionState.ClosePeer, CheckMessage, Crashes;
  }

  /** A step leads to a state from which the session can go on. */
  lemma StepSound(c: Config, s: State, e: SessionRun.Event, s': State)
    requires Sound(c, s) && SessionRun.Step(c, s, e, s')
    ensures Sound(c, s')
  {
    SessionRun.StepKeeps(c, s, e, s');
  }

  /** The events lead from one state to another, from which the session can go on. */
  ghost predicate Leads(c: Config, s: State, events: seq<SessionRun.Event>, s': State) {
    Sound(c, s') && SessionRun.Reaches(c, s, events, s')
  }

  lemma NoEvents(c: Config, s: State)
    requires Sound(c, s)
    ensures Leads(c, s, [], s)
  {
  }

  lemma LeadsSound(c: Config, s: State, events: seq<SessionRun.Event>, s': State)
    requires Leads(c, s, events, s')
    ensures Sound(c, s')
  {
  }

  lemma NextEvent(c: Config, s: State, events: seq<SessionRun.Event>, s1: State, e: SessionRun.Event, s2: State)
    requires Leads(c, s, events, s1) && Sound(c, s2) && SessionRun.Step(c, s1, e, s2)
    ensures Leads(c, s, events + [e], s2)
  {
    SessionRun.OneMoreEvent(c, s, events, s1, e, s2);
  }

  lemma LeadsOn(c: Config, s: State, events: seq<SessionRun.Event>, s1: State, more: seq<SessionRun.Event>, s2: State)
    requires Leads(c, s, events, s1) && Leads(c, s1, more, s2)
    ensures Leads(c, s, events + more, s2)
  {
    SessionRun.ReachesOn(c, s, events, s1, more, s2);
  }

  /** What is stored for every piece we have has the right hash. */
  ghost predicate Truthful(c: Config, s: State) {
    Sound(c, s) && Verified(c.t, s.pieceSet, s.flat)
  }

  lemma LeadsVerified(c: Config, s: State, events: seq<SessionRun.Event>, s': State)
    requires Truthful(c, s) && Leads(c, s, events, s')
    ensures Truthful(c, s')
  {
    SessionTheorems.VerifiedRun(c, s, events, s');
  }

  lemma ExpireIsStep(c: Config, s: State, a: Address)
    requires Sound(c, s) && a in s.peers
    ensures SessionRun.Step(c, s, SessionRun.Expire(a), SessionState.ClosePeer(s, a))
  {
    hide SessionState.ClosePeer;
  }

  lemma TickIsStep(c: Config, s: State, s': State)
    requires Sound(c, s) && SessionState.ChokePeers(s, s')
    ensures SessionRun.Step(c, s, SessionRun.ChokeTick, s')
  {
    hide SessionState.ChokePeers;
  }

  /** The greeting of a new peer is the handshake if it supports extensions, else our bitfield. */
  ghost function Greeting(c: Config, s: State, supportsExtensions: bool, handshake: seq<byte>): seq<byte> {
    if supportsExtensions then handshake else BitfieldMessage(c, s.pieceSet)
  }

  lemma ConnectIsStep(c: Config, s: State, a: Address, id: string, supportsExtensions: bool, handshake: seq<byte>)
    requires Sound(c, s) && |handshake| >= 2 && handshake[0] == EXTENSION
    ensures var greeting := Greeting(c, s, supportsExtensions, handshake);
            SessionRun.Step(c, s, SessionRun.Connect(a, id, greeting), AddPeer(c, s, a, id, greeting))
  {
    hide AddPeer, BitfieldMessage;
  }

  lemma KeepAliveIsStep(c: Config, s: State, a: Address, now: int)
    requires Sound(c, s) && a in s.peers
    ensures SessionRun.Step(c, s, SessionRun.KeepAlive(a, now),
                            WithPeer(Forgotten(s, TimedOut(s.peers[a], now)), a, Send(s.peers[a], [])))
  {
    hide Effect, SessionState.ClosePeer, CheckMessage, Crashes;
  }
}
