/** The session as an object. Every method is tied to the operation of SessionState of the same name. */
module Session {
  import opened Arith
  import opened Bytes
  import opened Geometry
  import opened SessionState
  import opened SessionInvariant
  import opened SessionSteps
  import opened SessionInputs
  import opened SessionWire
  import opened Peers
  import SessionRun
  import opened Stores
  import opened Sorting
  import Choker
  import Hashing
  import Bitsets

  function Addresses(list: seq<PeerState>): (r: seq<Address>)
    ensures |r| == |list| && forall i | 0 <= i < |list| :: r[i] == list[i].address
  {
    seq(|list|, i requires 0 <= i < |list| => list[i].address)
  }

  class TorrentSession {
    const c: Config
    const store: Store
    const policy: Choker.ClassicChokePolicy<PeerState>
    var pieceSet: set<nat>  // the pieces we have
    var goodPieces: nat
    var left: nat
    var saved: Option<seq<byte>>  // the resume file, once it was written
    var activePieces: map<nat, ActivePiece>
    var peers: map<Address, PeerState>

    constructor (c: Config, store: Store, pieceSet: set<nat>, goodPieces: nat, left: nat)
      requires c.Valid() && store.Valid(c.t) && (c.cached <==> store.Cached?)
      ensures Wired() && StoreReady() && this.c == c && this.store == store
      ensures fresh(policy) && policy.Valid() && policy.calls == []
      ensures State()
           == SessionState.State(pieceSet, goodPieces, left, None, map[], map[], store.Contents(), store.Boxes())
    {
      this.c, this.store := c, store;
      this.pieceSet, this.goodPieces, this.left, saved := pieceSet, goodPieces, left, None;
      activePieces, peers := map[], map[];
      policy := new Choker.ClassicChokePolicy<PeerState>();
    }

    // ---- The abstract state ----

    ghost function PeerViews(): (m: map<Address, Peer>)
      reads this`peers, peers.Values
      ensures m.Keys == peers.Keys
    {
      map a | a in peers :: peers[a].View()
    }

    ghost function ActiveViews(): (m: map<nat, Active>)
      reads this`activePieces, activePieces.Values
      ensures m.Keys == activePieces.Keys
    {
      map k | k in activePieces :: activePieces[k].View()
    }

    lemma OverOther(flat: seq<byte>, boxes: map<nat, seq<byte>>, flat': seq<byte>, boxes': map<nat, seq<byte>>)
      ensures Over(flat', boxes') == Over(flat, boxes).(flat := flat', boxes := boxes')
    {
    }

    /** The state of the session over a store that holds `flat` and caches `boxes`. */
    ghost function Over(flat: seq<byte>, boxes: map<nat, seq<byte>>): State
      reads this, peers.Values, activePieces.Values
    {
      SessionState.State(pieceSet, goodPieces, left, saved, ActiveViews(), PeerViews(), flat, boxes)
    }

    ghost function State(): State
      reads this, peers.Values, activePieces.Values, store.Files(), store.Objects()
    {
      Over(store.Contents(), store.Boxes())
    }

    ghost predicate DistinctPeers()
      reads this`peers
    {
      forall a | a in peers :: peers[a].address == a
    }

    ghost predicate DistinctPieces()
      reads this`activePieces
    {
      forall k | k in activePieces :: activePieces[k].piece == k
    }

    /** No object stands for two peers or two pieces. */
    ghost predicate Wired()
      reads this`peers, this`activePieces
    {
      DistinctPeers() && DistinctPieces()
    }

    ghost predicate StoreReady()
      reads store.Files(), store.Objects()
    {
      c.Valid() && store.Valid(c.t) && (c.cached <==> store.Cached?)
    }

    ghost predicate Knows(p: PeerState)
      reads this`peers
    {
      p.address in peers && peers[p.address] == p
    }

    // ---- Requesting ----

    method BlockLength(piece: nat, block: nat) returns (length: int)
      ensures length == RequestLength(c, piece, block)
    {
      var begin := block * STANDARD_BLOCK_LENGTH;
      length := STANDARD_BLOCK_LENGTH;
      if piece == c.t.totalPieces - 1 {
        var rest := c.t.lastPieceLength - begin;
        if rest < length {
          length := rest;
        }
      }
    }

    /** Requests or cancels a block. */
    method RequestBlockImp(p: PeerState, piece: nat, block: nat, request: bool, now: int)
      modifies p`ourRequests, p`sent
      ensures p.View() == Told(c, old(p.View()), piece, block, request, now)
      ensures var requestIndex := Pack(piece, block * STANDARD_BLOCK_LENGTH);
              p.ourRequests == if request then old(p.ourRequests)[requestIndex := now]
                               else old(p.ourRequests) - {requestIndex}
      ensures c.Valid() && piece < c.t.totalPieces && block < c.t.BlockCount(piece) ==>
                SendsBlock(c, old(p.sent), p.sent, if request then REQUEST else CANCEL, piece,
                           block * STANDARD_BLOCK_LENGTH)
    {
      hide SendsBlock;
      var begin := block * STANDARD_BLOCK_LENGTH;
      var opcode := REQUEST;
      if !request {
        opcode := CANCEL;
      }
      var length := BlockLength(piece, block);
      var req := [opcode] + Wire(piece) + Wire(begin) + Wire(length);
      assert req == RequestMessage(c, opcode, piece, block);
      var requestIndex := Pack(piece, begin);
      if !request {
        p.ourRequests := p.ourRequests - {requestIndex};
      } else {
        p.ourRequests := p.ourRequests[requestIndex := now];
      }
      p.SendMessage(req);
      if c.Valid() && piece < c.t.totalPieces && block < c.t.BlockCount(piece) {
        SentBlock(old(p.sent), opcode, piece, block);
      }
    }

    lemma SentBlock(sent: seq<seq<byte>>, opcode: byte, piece: nat, block: nat)
      requires c.Valid() && piece < c.t.totalPieces && block < c.t.BlockCount(piece)
      ensures SendsBlock(c, sent, sent + [RequestMessage(c, opcode, piece, block)], opcode, piece,
                         block * STANDARD_BLOCK_LENGTH)
    {
      hide RequestMessage, IsBlock, BlockSize, Torrent.BlockCount;
      BlockWired(c, opcode, piece, block);
    }

    /** The fields that only a verified piece changes. */
    ghost predicate SameTotals(s: State)
      reads this
    {
      pieceSet == s.pieceSet && goodPieces == s.goodPieces && left == s.left && saved == s.saved
    }

    /** Only one peer is not as it is in s. */
    lemma OnlyPeer(p: PeerState, s: State)
      requires Wired() && Knows(p) && SameTotals(s) && ActiveViews() == s.active && peers.Keys == s.peers.Keys
      requires forall a | a in peers && a != p.address :: peers[a].View() == s.peers[a]
      ensures Over(s.flat, s.boxes) == WithPeer(s, p.address, p.View())
    {
      assert PeerViews() == s.peers[p.address := p.View()];
    }

    lemma KnownAt(address: Address)
      requires Wired() && address in peers
      ensures Knows(peers[address]) && peers[address].address == address && peers[address] in peers.Values
    {
    }

    lemma KnownValue(p: PeerState)
      requires Knows(p)
      ensures p in peers.Values
    {
    }

    /** The session and its objects but for the peer p. */
    ghost function Others(p: PeerState): set<object>
      reads this`peers, this`activePieces
    {
      {this} + (set a | a in peers && a != p.address :: peers[a]) + activePieces.Values
    }

    /** All but the peer p is as in s. */
    ghost predicate OthersMatch(p: PeerState, s: State, others: set<object>)
      reads this, others
    {
      && others == Others(p) && SameTotals(s) && ActiveViews() == s.active && peers.Keys == s.peers.Keys
      && forall a | a in peers && a != p.address :: peers[a].View() == s.peers[a]
    }

    /** Before the peer p changes. */
    lemma SetApart(p: PeerState, s: State) returns (others: set<object>)
      requires Wired() && Knows(p) && s == Over(s.flat, s.boxes)
      ensures OthersMatch(p, s, others) && p !in others && this in others && p in peers.Values
      ensures p.address in s.peers && s.peers[p.address] == p.View()
    {
      others := Others(p);
    }

    /** After the peer p has changed. */
    lemma PutBack(p: PeerState, s: State, others: set<object>)
      requires Wired() && Knows(p) && OthersMatch(p, s, others)
      ensures Over(s.flat, s.boxes) == WithPeer(s, p.address, p.View())
    {
      OnlyPeer(p, s);
    }

    /** Only one active piece is not as it is in s. */
    lemma OnlyActive(k: nat, s: State)
      requires Wired() && k in activePieces && SameTotals(s) && PeerViews() == s.peers
      requires activePieces.Keys == s.active.Keys
      requires forall l | l in activePieces && l != k :: activePieces[l].View() == s.active[l]
      ensures Over(s.flat, s.boxes) == s.(active := s.active[k := activePieces[k].View()])
    {
      assert ActiveViews() == s.active[k := activePieces[k].View()];
    }

    lemma ActivesAre(s: State, active: map<nat, Active>)
      requires SameTotals(s) && PeerViews() == s.peers && activePieces.Keys == active.Keys
      requires forall k | k in activePieces :: activePieces[k].View() == active[k]
      ensures Over(s.flat, s.boxes) == s.(active := active)
    {
      assert ActiveViews() == active;
    }

    method ChooseBlock(piece: nat, endgame: bool, ghost s: State) returns (block: int)
      requires Wired() && piece in activePieces && s == Over(s.flat, s.boxes)
      modifies activePieces.Values`downloaderCount
      ensures peers == old(peers) && activePieces == old(activePieces)
      ensures Wired()
      ensures block < 0 ==> NoBlock(s.active[piece].counts, endgame)
      ensures block >= 0 && endgame ==> EndgameBlock(s.active[piece].counts, block)
      ensures block >= 0 && !endgame ==> FreeBlock(s.active[piece].counts, block)
      ensures block < 0 ==> Over(s.flat, s.boxes) == s
      ensures block >= 0 ==> Over(s.flat, s.boxes) == s.(active := s.active[piece := Bumped(s.active[piece], block)])
    {
      block := activePieces[piece].ChooseBlockToDownload(endgame);
      OnlyActive(piece, s);
      assert s.active[piece := s.active[piece]] == s.active;
    }

    method AskPeer(p: PeerState, piece: nat, block: nat, request: bool, now: int, ghost s: State)
      requires Wired() && Knows(p) && s == Over(s.flat, s.boxes)
      modifies p`ourRequests, p`sent
      ensures peers == old(peers) && activePieces == old(activePieces)
      ensures Wired()
      ensures Over(s.flat, s.boxes) == WithPeer(s, p.address, Told(c, s.peers[p.address], piece, block, request, now))
    {
      hide *;
      ghost var others := SetApart(p, s);
      RequestBlockImp(p, piece, block, request, now);
      PutBack(p, s, others);
    }

    /** The block of an active piece that is asked for; negative for end of file. */
    method RequestBlock2(p: PeerState, piece: nat, endgame: bool, now: int, ghost s: State) returns (block: int)
      requires Wired() && Knows(p) && piece in activePieces && s == Over(s.flat, s.boxes)
      modifies p`ourRequests, p`sent, activePieces.Values`downloaderCount
      ensures Wired()
      ensures Asks(c, s, p.address, piece, endgame, now, block, Over(s.flat, s.boxes))
    {
      block := ChooseBlock(piece, endgame, s);
      if block >= 0 {
        AskPeer(p, piece, block, true, now, s.(active := s.active[piece := Bumped(s.active[piece], block)]));
      }
    }

    /** Asks for a block of an active piece that the peer has; any order of the pieces will do. */
    method RequestActive(p: PeerState, endgame: bool, now: int, ghost s: State) returns (done: bool)
      requires Wired() && Knows(p) && s == Over(s.flat, s.boxes)
      modifies p`ourRequests, p`sent, activePieces.Values`downloaderCount
      ensures Wired()
      ensures done ==> RequestsActive(c, s, p.address, now, endgame, Over(s.flat, s.boxes))
      ensures !done ==> Over(s.flat, s.boxes) == s
      ensures !done ==> forall k | k in s.active && k in p.have :: NoBlock(s.active[k].counts, endgame)
    {
      var todo := activePieces.Keys;
      while todo != {}
        invariant todo <= activePieces.Keys && Wired() && Over(s.flat, s.boxes) == s
        invariant forall k | k in s.active && k in p.have && k !in todo :: NoBlock(s.active[k].counts, endgame)
      {
        var k :| k in todo;
        todo := todo - {k};
        if k in p.have {
          var block := RequestBlock2(p, k, endgame, now, s);
          if block >= 0 {
            return true;
          }
        }
      }
      return false;
    }

    /** The first piece in the range that we lack, the peer has, and nobody is downloading; -1 if there is none. */
    method CheckRange(p: PeerState, start: nat, end: nat) returns (piece: int)
      requires p.have <= c.t.AllPieces()
      ensures piece == -1 || (start <= piece < end && piece < c.t.totalPieces && Free(p, piece))
      ensures forall i: nat | start <= i < (if piece == -1 then end else piece) :: !Free(p, i)
    {
      var clampedEnd := Min(end, c.t.totalPieces);
      for i := start to Max(start, clampedEnd)
        invariant forall j: nat | start <= j < i :: !Free(p, j)
      {
        if i !in pieceSet && i in p.have {
          if i !in activePieces {
            return i;
          }
        }
      }
      return -1;
    }

    ghost predicate Free(p: PeerState, i: nat)
      reads this, p
    {
      i in p.have && i !in pieceSet && i !in activePieces
    }

    /** The search starts anywhere and wraps around. */
    method ChoosePiece(p: PeerState, ghost s: State) returns (piece: int)
      requires Wired() && Knows(p) && s == Over(s.flat, s.boxes)
      requires p.have <= c.t.AllPieces() && c.t.totalPieces >= 1
      ensures piece >= 0 ==> piece < c.t.totalPieces && Unclaimed(s, s.peers[p.address], piece)
      ensures piece < 0 ==> !exists i :: Unclaimed(s, s.peers[p.address], i)
    {
      var n := c.t.totalPieces;
      var start: nat :| start < n;
      piece := CheckRange(p, start, n);
      if piece == -1 {
        piece := CheckRange(p, 0, start);
      }
      assert forall i: nat :: Unclaimed(s, s.peers[p.address], i) <==> Free(p, i);
    }

    /** Every active piece was one before or is a new object. */
    twostate predicate Renewed(before: map<nat, ActivePiece>)
      reads this`activePieces
    {
      forall k | k in activePieces :: fresh(activePieces[k]) || activePieces[k] in before.Values
    }

    method BlankPiece(piece: nat) returns (v: ActivePiece)
      ensures fresh(v) && v.piece == piece && v.View() == Fresh(c, piece)
    {
      var pieceLength := c.t.PieceLength(piece);
      var pieceCount := (pieceLength + STANDARD_BLOCK_LENGTH - 1) / STANDARD_BLOCK_LENGTH;
      v := new ActivePiece(pieceCount, pieceLength, piece);
      assert v.downloaderCount == Fresh(c, piece).counts;
    }

    method PutPiece(piece: nat, v: ActivePiece)
      requires Wired() && v.piece == piece
      modifies this`activePieces
      ensures Wired() && activePieces == old(activePieces)[piece := v]
    {
      activePieces := activePieces[piece := v];
    }

    method NewActivePiece(piece: nat, ghost s: State)
      requires Wired() && s == Over(s.flat, s.boxes) && piece !in activePieces
      modifies this`activePieces
      ensures Wired() && piece in activePieces && fresh(activePieces[piece]) && Grown(old(activePieces))
      ensures Over(s.flat, s.boxes) == Started(c, s, piece)
    {
      hide Fresh, Wired;
      var v := BlankPiece(piece);
      PutPiece(piece, v);
      ActivesAre(s, s.active[piece := v.View()]);
    }

    /** Starts to download a piece. */
    method StartPiece(p: PeerState, piece: nat, now: int, ghost s: State)
      requires Wired() && Knows(p) && s == Over(s.flat, s.boxes)
      requires c.Valid() && piece < c.t.totalPieces && Unclaimed(s, s.peers[p.address], piece)
      modifies this`activePieces, p`ourRequests, p`sent, activePieces.Values`downloaderCount
      ensures Wired() && Grown(old(activePieces))
      ensures StartsPiece(c, s, p.address, now, Over(s.flat, s.boxes))
    {
      assert piece !in activePieces && p.address in s.peers;
      hide Over;
      NewActivePiece(piece, s);
      var block := RequestBlock2(p, piece, false, now, Started(c, s, piece));
      FirstBlock(c, s, p.address, piece, now, block, Over(s.flat, s.boxes));
    }

    method LoseInterest(p: PeerState, ghost s: State)
      requires Wired() && Knows(p) && s == Over(s.flat, s.boxes)
      modifies p`ourRequests, p`sent, p`amInterested
      ensures Wired()
      ensures Over(s.flat, s.boxes) == WithPeer(s, p.address, SessionState.SetInterested(s.peers[p.address], false))
    {
      hide *;
      ghost var others := SetApart(p, s);
      p.SetInterested(false);
      PutBack(p, s, others);
    }

    /** No piece can be started: a block others were asked for, or no more interest. */
    method DoubleUp(p: PeerState, now: int, ghost s: State)
      requires Wired() && Knows(p) && s == Over(s.flat, s.boxes) && ActivesOk(c, s.pieceSet, s.active)
      requires Exhausted(c, s, s.peers[p.address])
      modifies p`ourRequests, p`sent, p`amInterested, activePieces.Values`downloaderCount
      ensures Wired() && Grown(old(activePieces))
      ensures SessionState.RequestBlock(c, s, p.address, now, Over(s.flat, s.boxes))
    {
      var done := RequestActive(p, true, now, s);
      if !done {
        LoseInterest(p, s);
      }
      Doubled(c, s, p.address, now, done, Over(s.flat, s.boxes));
    }

    /** No active pieces, or no suitable active pieces: pick one. */
    method PickPiece(p: PeerState, now: int, ghost s: State)
      requires Wired() && Knows(p) && s == Over(s.flat, s.boxes)
      requires c.Valid() && p.have <= c.t.AllPieces() && ActivesOk(c, s.pieceSet, s.active)
      requires NoFreeBlock(s, s.peers[p.address]) && |s.active| < c.maxActive
      modifies this`activePieces, p`ourRequests, p`sent, p`amInterested, activePieces.Values`downloaderCount
      ensures Wired() && Grown(old(activePieces))
      ensures SessionState.RequestBlock(c, s, p.address, now, Over(s.flat, s.boxes))
    {
      var piece := ChoosePiece(p, s);
      if piece < 0 {
        DoubleUp(p, now, s);
      } else {
        StartPiece(p, piece, now, s);
      }
    }

    /** A block of an active piece, a block of a new piece, a block others were asked for, or no more interest. */
    method RequestBlock(p: PeerState, now: int, ghost s: State)
      requires Wired() && Knows(p) && s == Over(s.flat, s.boxes)
      requires c.Valid() && p.have <= c.t.AllPieces() && ActivesOk(c, s.pieceSet, s.active)
      modifies this`activePieces, p`ourRequests, p`sent, p`amInterested, activePieces.Values`downloaderCount
      ensures Wired() && Grown(old(activePieces))
      ensures SessionState.RequestBlock(c, s, p.address, now, Over(s.flat, s.boxes))
    {
      var done := RequestActive(p, false, now, s);
      if done {
        return;
      }
      if |activePieces| >= c.maxActive {
        return;
      }
      PickPiece(p, now, s);
    }

    /** New active pieces are new objects. */
    twostate predicate Grown(before: map<nat, ActivePiece>)
      reads this`activePieces
    {
      && (forall k | k in activePieces && k !in before :: fresh(activePieces[k]))
      && (forall k | k in before :: k in activePieces && activePieces[k] == before[k])
    }

    // ---- Forgetting requests ----

    method RemoveRequest(piece: nat, block: nat, ghost s: State)
      requires Wired() && s == Over(s.flat, s.boxes) && (piece in s.active ==> block < |s.active[piece].counts|)
      modifies activePieces.Values`downloaderCount
      ensures peers == old(peers) && activePieces == old(activePieces)
      ensures Wired()
      ensures Over(s.flat, s.boxes) == OneLess(s, piece, block)
    {
      if piece in activePieces {
        activePieces[piece].Forget(block);
        OnlyActive(piece, s);
        assert s.active[piece := s.active[piece]] == s.active;
      }
    }

    method UnpackKey(key: nat) returns (piece: nat, block: nat)
      requires c.Valid() && KeyOk(c, key)
      ensures piece < c.t.totalPieces && block < c.t.BlockCount(piece)
      ensures key == Pack(piece, block * STANDARD_BLOCK_LENGTH)
    {
      piece := PieceOf(key);
      var begin := BeginOf(key);
      block := begin / STANDARD_BLOCK_LENGTH;
      KeyUnpacks(c, key);
    }

    method ForgetKey(key: nat, ghost s: State)
      requires Wired() && s == Over(s.flat, s.boxes) && c.Valid() && ActivesOk(c, s.pieceSet, s.active) && KeyOk(c, key)
      modifies activePieces.Values`downloaderCount
      ensures peers == old(peers) && activePieces == old(activePieces)
      ensures Wired() && Over(s.flat, s.boxes) == Forgotten(s, {key})
    {
      var piece, block := UnpackKey(key);
      ForgottenOne(c, s, piece, block);
      RemoveRequest(piece, block, s);
    }

    ghost predicate CanForget(s: State, keys: set<nat>) {
      c.Valid() && ActivesOk(c, s.pieceSet, s.active) && forall key | key in keys :: KeyOk(c, key)
    }

    /** One more request, after those in `done`, is forgotten. */
    method ForgetNext(key: nat, ghost done: set<nat>, ghost s: State)
      requires Wired() && CanForget(s, {key}) && Over(s.flat, s.boxes) == Forgotten(s, done) && key !in done
      modifies activePieces.Values`downloaderCount
      ensures peers == old(peers) && activePieces == old(activePieces)
      ensures Wired() && Over(s.flat, s.boxes) == Forgotten(s, done + {key})
    {
      LessAskedAllOk(c, s.pieceSet, s.active, done);
      ForgetKey(key, Forgotten(s, done));
      ForgottenMore(s, done, key);
    }

    method ClearRequests(p: PeerState, ghost s: State)
      requires Wired() && Knows(p) && s == Over(s.flat, s.boxes)
      modifies p`ourRequests
      ensures peers == old(peers) && activePieces == old(activePieces)
      ensures Wired() && Over(s.flat, s.boxes) == WithPeer(s, p.address, s.peers[p.address].(ourRequests := map[]))
    {
      hide Over, OthersMatch, Wired, Knows;
      ghost var others := SetApart(p, s);
      p.ourRequests := map[];
      PutBack(p, s, others);
    }

    method RemoveRequests(p: PeerState, ghost s: State)
      requires Wired() && Knows(p) && s == Over(s.flat, s.boxes) && CanForget(s, p.ourRequests.Keys)
      modifies p`ourRequests, activePieces.Values`downloaderCount
      ensures peers == old(peers) && activePieces == old(activePieces)
      ensures Wired()
      ensures Over(s.flat, s.boxes)
           == WithPeer(Forgotten(s, s.peers[p.address].ourRequests.Keys), p.address,
                       s.peers[p.address].(ourRequests := map[]))
    {
      assert p.address in s.peers && s.peers[p.address].ourRequests == p.ourRequests;
      hide Over;
      ForgetAll(p.ourRequests.Keys, s);
      ClearRequests(p, Forgotten(s, s.peers[p.address].ourRequests.Keys));
    }

    method ForgetAll(keys: set<nat>, ghost s: State)
      requires Wired() && s == Over(s.flat, s.boxes) && CanForget(s, keys)
      modifies activePieces.Values`downloaderCount
      ensures peers == old(peers) && activePieces == old(activePieces)
      ensures Wired() && Over(s.flat, s.boxes) == Forgotten(s, keys)
    {
      hide Over, Wired, Forgotten, KeyOk, ActivesOk;
      var todo := keys;
      ghost var done := {};
      ForgottenNone(s);
      while todo != {}
        invariant peers == old(peers) && activePieces == old(activePieces)
        invariant done + todo == keys && done !! todo && Wired() && Over(s.flat, s.boxes) == Forgotten(s, done)
      {
        var key :| key in todo;
        ForgetNext(key, done, s);
        todo, done := todo - {key}, done + {key};
      }
      assert done == keys;
    }

    /** The requests that have waited too long are taken off the counts, but are not forgotten. */
    method DoCheckRequests(p: PeerState, now: int, ghost s: State)
      requires Wired() && Knows(p) && s == Over(s.flat, s.boxes) && CanForget(s, p.ourRequests.Keys)
      modifies activePieces.Values`downloaderCount
      ensures peers == old(peers) && activePieces == old(activePieces)
      ensures Wired()
      ensures Over(s.flat, s.boxes) == Forgotten(s, TimedOut(s.peers[p.address], now))
    {
      var keys := set key | key in p.ourRequests && now - p.ourRequests[key] > REQUEST_TIMEOUT;
      ForgetAll(keys, s);
    }

    // ---- Receiving ----

    /** The peers in `done` are dealt with, starting from s. */
    ghost predicate Reached(s: State, after: map<Address, Peer>, done: set<Address>)
      requires after.Keys == s.peers.Keys
      reads this, peers.Values, activePieces.Values
    {
      Wired() && peers.Keys == s.peers.Keys && Over(s.flat, s.boxes) == PartlyDone(s, after, done)
    }

    lemma ReachedNone(s: State, after: map<Address, Peer>)
      requires Wired() && s == Over(s.flat, s.boxes) && after.Keys == s.peers.Keys
      ensures Reached(s, after, {}) && peers.Keys == s.peers.Keys
    {
      PartlyNone(s.peers, after);
    }

    lemma ReachedAll(s: State, after: map<Address, Peer>, done: set<Address>)
      requires after.Keys == s.peers.Keys && Reached(s, after, done) && done == peers.Keys
      ensures Wired() && Over(s.flat, s.boxes) == s.(peers := after)
    {
      PartlyAll(s.peers, after, done);
    }

    /** The peer b, not done yet, is sent a cancel if it was asked for the block too. */
    method CancelAt(b: Address, p: PeerState, piece: nat, begin: nat, ghost asked: int, ghost s: State)
      requires Wired() && Knows(p) && s == Over(s.flat, s.boxes) && b in peers && b != p.address && asked > 1
      modifies peers.Values`ourRequests, peers.Values`sent
      ensures peers == old(peers) && activePieces == old(activePieces)
      ensures Wired() && Over(s.flat, s.boxes) == WithPeer(s, b, Answer(c, s.peers[b], false, piece, begin, asked))
    {
      var peer := peers[b];
      assert s.peers[b] == peer.View() && s.peers[b := s.peers[b]] == s.peers;
      var requestIndex := Pack(piece, begin);
      if requestIndex in peer.ourRequests {
        assert peer in peers.Values;
        AskPeer(peer, piece, begin / STANDARD_BLOCK_LENGTH, false, 0, s);
      }
    }

    method CancelNext(b: Address, p: PeerState, piece: nat, begin: nat, ghost asked: int, ghost done: set<Address>,
                      ghost s: State)
      requires Knows(p) && asked > 1 && Reached(s, Answered(c, s.peers, p.address, piece, begin, asked), done)
      requires b in s.peers && b !in done && b != p.address
      modifies peers.Values`ourRequests, peers.Values`sent
      ensures peers == old(peers) && activePieces == old(activePieces)
      ensures Reached(s, Answered(c, s.peers, p.address, piece, begin, asked), done + {b})
    {
      ghost var after := Answered(c, s.peers, p.address, piece, begin, asked);
      CancelAt(b, p, piece, begin, asked, PartlyDone(s, after, done));
      PartlyNext(s.peers, after, done, b);
    }

    /** The other peers that were asked for the block are told not to send it. */
    method CancelOthers(p: PeerState, piece: nat, begin: nat, asked: int, ghost s: State)
      requires Knows(p) && p.address in s.peers && asked > 1
      requires Reached(s, Answered(c, s.peers, p.address, piece, begin, asked), {p.address})
      modifies peers.Values`ourRequests, peers.Values`sent
      ensures peers == old(peers) && activePieces == old(activePieces)
      ensures Wired() && Over(s.flat, s.boxes) == s.(peers := Answered(c, s.peers, p.address, piece, begin, asked))
    {
      var a := p.address;
      ghost var after := Answered(c, s.peers, a, piece, begin, asked);
      var keys := peers.Keys;
      assert s.peers.Keys == keys;
      hide Over, Reached;
      var todo := keys - {a};
      ghost var done := {a};
      while todo != {}
        invariant done + todo == keys && done !! todo && a in done
        invariant Reached(s, after, done) && peers == old(peers) && activePieces == old(activePieces)
      {
        var b :| b in todo;
        CancelNext(b, p, piece, begin, asked, done, s);
        todo, done := todo - {b}, done + {b};
      }
      ReachedAll(s, after, done);
    }

    method DeleteRequest(p: PeerState, requestIndex: nat, ghost s: State)
      requires Wired() && Knows(p) && s == Over(s.flat, s.boxes)
      modifies p`ourRequests
      ensures peers == old(peers) && activePieces == old(activePieces)
      ensures Wired()
      ensures var q := s.peers[p.address];
              Over(s.flat, s.boxes) == WithPeer(s, p.address, q.(ourRequests := q.ourRequests - {requestIndex}))
    {
      hide Over, OthersMatch, Wired, Knows;
      ghost var others := SetApart(p, s);
      p.ourRequests := p.ourRequests - {requestIndex};
      PutBack(p, s, others);
    }

    method MarkBlock(piece: nat, block: nat, ghost s: State) returns (requestCount: int)
      requires Wired() && piece in activePieces && s == Over(s.flat, s.boxes) && block < |s.active[piece].counts|
      modifies activePieces.Values`downloaderCount
      ensures peers == old(peers) && activePieces == old(activePieces)
      ensures Wired() && requestCount == s.active[piece].counts[block]
      ensures Over(s.flat, s.boxes) == s.(active := s.active[piece := HereNow(s.active[piece], block)])
    {
      assert activePieces[piece] in activePieces.Values;
      requestCount := activePieces[piece].RecordBlock(block);
      OnlyActive(piece, s);
    }

    /** The part of RecordBlock up to the test for completion. */
    method AnswerBlock(p: PeerState, piece: nat, begin: nat, ghost s: State)
      requires Wired() && Knows(p) && s == Over(s.flat, s.boxes)
      requires piece in activePieces && begin / STANDARD_BLOCK_LENGTH < |activePieces[piece].downloaderCount|
      modifies peers.Values`ourRequests, peers.Values`sent, activePieces.Values`downloaderCount
      ensures peers == old(peers) && activePieces == old(activePieces)
      ensures Wired() && Over(s.flat, s.boxes) == Marked(c, s, p.address, piece, begin)
    {
      var block := begin / STANDARD_BLOCK_LENGTH;
      var requestIndex := Pack(piece, begin);
      var a := p.address;
      assert a in s.peers && piece in s.active && block < |s.active[piece].counts| && s.peers.Keys == peers.Keys;
      assert p in peers.Values;
      hide Over;
      DeleteRequest(p, requestIndex, s);
      ghost var q := s.peers[a];
      var requestCount := MarkBlock(piece, block, WithPeer(s, a, q.(ourRequests := q.ourRequests - {requestIndex})));
      ghost var m := s.(active := s.active[piece := HereNow(s.active[piece], block)]);
      SenderAnswered(c, s.peers, a, piece, begin, requestCount);
      if requestCount > 1 {
        CancelOthers(p, piece, begin, requestCount, m);
      }
    }

    // ---- Storing ----

    /** What the abstract state says of a peer that we know. */
    lemma Known(p: PeerState, s: State)
      requires Knows(p) && s == Over(s.flat, s.boxes)
      ensures p.address in s.peers && s.peers[p.address] == p.View() && s.peers.Keys == peers.Keys && Matches(s)
      ensures s.peers[p.address].amChoking == p.amChoking && s.peers[p.address].ourRequests == p.ourRequests
      ensures s.active.Keys == activePieces.Keys
    {
    }

    lemma Held(s: State)
      requires StoreHolds(s)
      ensures c.Valid() && |s.flat| == c.t.totalSize && StoreIs(s.flat, s.boxes, store.Objects())
    {
    }

    lemma HeldNow(s: State, flat: seq<byte>, boxes: map<nat, seq<byte>>, objects: set<object>)
      requires StoreIs(flat, boxes, objects)
      ensures s.flat == flat && s.boxes == boxes ==> StoreHolds(s)
      ensures StoreReady() && store.Objects() == objects && store.Contents() == flat && store.Boxes() == boxes
    {
    }

    ghost predicate Matches(s: State)
      reads this, peers.Values, activePieces.Values
    {
      && SameTotals(s) && s.peers.Keys == peers.Keys && s.active.Keys == activePieces.Keys
      && (forall a | a in peers :: peers[a].View() == s.peers[a])
      && forall k | k in activePieces :: activePieces[k].View() == s.active[k]
    }

    lemma MatchesIsOver(s: State)
      requires Matches(s)
      ensures s == Over(s.flat, s.boxes)
    {
      assert PeerViews() == s.peers;
      assert ActiveViews() == s.active;
    }

    ghost predicate StoreHolds(s: State)
      reads store.Files(), store.Objects()
    {
      StoreReady() && s.flat == store.Contents() && s.boxes == store.Boxes()
    }

    method SendTo(b: Address, message: seq<byte>, ghost s: State)
      requires Wired() && b in peers && s == Over(s.flat, s.boxes)
      modifies peers.Values`sent
      ensures peers == old(peers) && activePieces == old(activePieces)
      ensures Wired() && Over(s.flat, s.boxes) == WithPeer(s, b, Send(s.peers[b], message))
    {
      hide *;
      KnownAt(b);
      var peer := peers[b];
      ghost var others := SetApart(peer, s);
      peer.SendMessage(message);
      PutBack(peer, s, others);
    }

    method AnnounceTo(b: Address, piece: nat, ghost s: State)
      requires Wired() && b in peers && s == Over(s.flat, s.boxes)
      modifies peers.Values`sent
      ensures peers == old(peers) && activePieces == old(activePieces)
      ensures Wired() && Over(s.flat, s.boxes) == WithPeer(s, b, Announce(s.peers[b], piece))
    {
      assert s.peers[b := s.peers[b]] == s.peers;
      if piece !in peers[b].have {
        SendTo(b, HaveMessage(piece), s);
      }
    }

    /** The peers that lack the piece are told that we have it. */
    method AnnounceNext(b: Address, piece: nat, ghost done: set<Address>, ghost s: State)
      requires Reached(s, Announced(s.peers, piece), done) && b in s.peers && b !in done
      modifies peers.Values`sent
      ensures peers == old(peers) && activePieces == old(activePieces)
      ensures Reached(s, Announced(s.peers, piece), done + {b})
    {
      AnnounceTo(b, piece, PartlyDone(s, Announced(s.peers, piece), done));
      PartlyNext(s.peers, Announced(s.peers, piece), done, b);
    }

    method AnnouncePiece(piece: nat, ghost s: State)
      requires Wired() && s == Over(s.flat, s.boxes)
      modifies peers.Values`sent
      ensures peers == old(peers) && activePieces == old(activePieces)
      ensures Wired() && Over(s.flat, s.boxes) == s.(peers := Announced(s.peers, piece))
      ensures piece < TWO_TO_THE_32 ==> HavesSent(s, piece)
    {
      ghost var after := Announced(s.peers, piece);
      var keys := peers.Keys;
      ReachedNone(s, after);
      hide Over, Reached;
      var todo := keys;
      ghost var done := {};
      while todo != {}
        invariant done + todo == keys && done !! todo
        invariant Reached(s, after, done) && peers == old(peers) && activePieces == old(activePieces)
      {
        var b :| b in todo;
        AnnounceNext(b, piece, done, s);
        todo, done := todo - {b}, done + {b};
      }
      ReachedAll(s, after, done);
      if piece < TWO_TO_THE_32 {
        AllHavesSent(s, piece);
      }
    }

    /** Since s, exactly the peers that lack the piece were sent a message, and it names the piece. */
    ghost predicate HavesSent(s: State, piece: nat)
      reads this`peers, peers.Values
    {
      s.peers.Keys == peers.Keys
      && forall b | b in peers ::
           if piece in s.peers[b].have then peers[b].sent == s.peers[b].sent
           else SendsHave(s.peers[b].sent, peers[b].sent, piece)
    }

    lemma AllHavesSent(s: State, piece: nat)
      requires Over(s.flat, s.boxes) == s.(peers := Announced(s.peers, piece)) && piece < TWO_TO_THE_32
      ensures HavesSent(s, piece)
    {
      hide HaveMessage, IsHave;
      HaveWired(piece);
      assert PeerViews() == Announced(s.peers, piece);
      forall b | b in peers
        ensures peers[b].View() == Announce(s.peers[b], piece)
      {
      }
    }

    ghost predicate Owns(s: State)
      reads this, peers.Values, activePieces.Values
    {
      Wired() && Matches(s)
    }

    lemma OwnsFrom(s: State)
      requires Wired() && s == Over(s.flat, s.boxes)
      ensures Owns(s)
    {
    }

    lemma OwnsIsOver(s: State)
      requires Owns(s)
      ensures Wired() && s == Over(s.flat, s.boxes)
    {
      MatchesIsOver(s);
    }

    /** The store shares no object with the session. */
    lemma StoreApart(objects: set<object>, flat: seq<byte>, boxes: map<nat, seq<byte>>)
      requires StoreIs(flat, boxes, objects)
      ensures objects == store.Objects() && store.Files() in objects && this !in objects && policy !in objects
      ensures forall q: PeerState | q in peers.Values :: q !in objects
      ensures forall v: ActivePiece | v in activePieces.Values :: v !in objects
    {
      store.OnlyStores();
    }

    /** A verified piece reaches the file store: a piece that is being downloaded is not in the cache. */
    method WriteStore(content: seq<byte>, piece: nat, now: int, ghost s: State, ghost objects: set<object>)
      requires Owns(s) && StoreIs(s.flat, s.boxes, objects) && StoreSound(c, s)
      requires piece < c.t.totalPieces && piece !in s.pieceSet && |content| == c.t.PieceLength(piece)
      modifies store.Objects()
      ensures peers == old(peers) && activePieces == old(activePieces)
      ensures Owns(s) && StoreIs(store.Contents(), store.Boxes(), objects)
      ensures Written(c, s, piece, content, store.Contents(), store.Boxes())
    {
      StoreApart(objects, s.flat, s.boxes);
      hide Owns;
      store.WritePiece(c.t, content, piece, now);
      store.BoxesAreSlices(c.t);
      WrittenBoxes(c, s, piece, content, store.Contents(), store.Boxes());
    }

    method WriteThrough(content: seq<byte>, piece: nat, now: int, ghost s: State)
      requires Wired() && s == Over(s.flat, s.boxes) && StoreHolds(s) && StoreSound(c, s)
      requires piece < c.t.totalPieces && piece !in s.pieceSet && |content| == c.t.PieceLength(piece)
      modifies store.Objects()
      ensures peers == old(peers) && activePieces == old(activePieces)
      ensures Wired() && s == Over(s.flat, s.boxes) && StoreReady() && store.Objects() == old(store.Objects())
      ensures Written(c, s, piece, content, store.Contents(), store.Boxes())
    {
      hide *;
      Held(s);
      OwnsFrom(s);
      ghost var objects := store.Objects();
      WriteStore(content, piece, now, s, objects);
      OwnsIsOver(s);
      HeldNow(s, store.Contents(), store.Boxes(), objects);
    }

    method CountPiece(piece: nat, length: nat, ghost s: State)
      requires Wired() && s == Over(s.flat, s.boxes)
      modifies this`pieceSet, this`goodPieces, this`left, this`saved
      ensures peers == old(peers) && activePieces == old(activePieces)
      ensures Wired() && Over(s.flat, s.boxes) == Counted(c, s, piece, length)
    {
      hide PeerViews, ActiveViews, Wired, Uint64Minus, Bitsets.Encode;
      left := Uint64Minus(left, length);
      pieceSet := pieceSet + {piece};
      goodPieces := goodPieces + 1;
      if c.quickResume {
        saved := Some(Bitsets.Encode(c.t.totalPieces, pieceSet));
      }
    }

    /** The store has this content, and consists of these objects. */
    ghost predicate StoreIs(flat: seq<byte>, boxes: map<nat, seq<byte>>, objects: set<object>)
      reads store.Files(), store.Objects()
    {
      StoreReady() && flat == store.Contents() && boxes == store.Boxes() && objects == store.Objects()
    }

    method CountAndAnnounce(piece: nat, length: nat, ghost s: State, ghost flat: seq<byte>,
                            ghost boxes: map<nat, seq<byte>>, ghost objects: set<object>)
      requires Wired() && s == Over(s.flat, s.boxes) && StoreIs(flat, boxes, objects)
      modifies this`pieceSet, this`goodPieces, this`left, this`saved, peers.Values`sent
      ensures Wired() && StoreIs(flat, boxes, objects) && peers == old(peers) && activePieces == old(activePieces)
      ensures Over(flat, boxes)
           == Counted(c, s, piece, length).(peers := Announced(s.peers, piece), flat := flat, boxes := boxes)
    {
      store.OnlyStores();
      assert forall q: PeerState | q in peers.Values :: q !in objects;
      assert this !in objects;
      hide Over, Wired;
      CountPiece(piece, length, s);
      AnnouncePiece(piece, Counted(c, s, piece, length));
      OverOther(s.flat, s.boxes, flat, boxes);
    }

    /** The piece is written, counted and announced. */
    method StorePiece(content: seq<byte>, piece: nat, now: int, ghost s: State)
      requires Wired() && s == Over(s.flat, s.boxes) && StoreHolds(s) && StoreSound(c, s)
      requires piece < c.t.totalPieces && piece !in s.pieceSet && |content| == c.t.PieceLength(piece)
      modifies store.Objects(), this`pieceSet, this`goodPieces, this`left, this`saved, peers.Values`sent
      ensures Wired() && StoreReady() && store.Objects() == old(store.Objects())
      ensures peers == old(peers) && activePieces == old(activePieces)
      ensures StoresPiece(c, s, piece, content, Over(store.Contents(), store.Boxes()))
    {
      WriteThrough(content, piece, now, s);
      CountAndAnnounce(piece, |content|, s, store.Contents(), store.Boxes(), store.Objects());
    }

    method DropPiece(piece: nat, ghost s: State) returns (content: seq<byte>)
      requires Wired() && piece in activePieces && s == Over(s.flat, s.boxes)
      modifies this`activePieces
      ensures Wired() && activePieces == old(activePieces) - {piece} && peers == old(peers)
      ensures content == s.active[piece].buffer && Over(s.flat, s.boxes) == s.(active := s.active - {piece})
    {
      content := activePieces[piece].buffer;
      activePieces := activePieces - {piece};
      ActivesAre(s, s.active - {piece});
    }

    method DropComplete(piece: nat, ghost s: State, ghost objects: set<object>) returns (content: seq<byte>)
      requires Wired() && piece in activePieces && s == Over(s.flat, s.boxes) && StoreIs(s.flat, s.boxes, objects)
      modifies this`activePieces
      ensures Wired() && StoreIs(s.flat, s.boxes, objects) && activePieces == old(activePieces) - {piece}
      ensures peers == old(peers)
      ensures content == s.active[piece].buffer && Over(s.flat, s.boxes) == s.(active := s.active - {piece})
    {
      store.OnlyStores();
      assert this !in objects;
      hide Over, Wired;
      content := DropPiece(piece, s);
    }

    /** A complete piece, no longer active, is stored if its hash is right. */
    method KeepIfGood(p: PeerState, content: seq<byte>, piece: nat, now: int, ghost s: State,
                      ghost objects: set<object>)
      returns (panicked: bool)
      requires StoreIs(s.flat, s.boxes, objects)
      requires Knows(p) && p.address in s.peers && piece in s.active && content == s.active[piece].buffer
      requires Wired() && s.(active := s.active - {piece}) == Over(s.flat, s.boxes) && StoreSound(c, s)
      requires piece < c.t.totalPieces && piece !in s.pieceSet && |content| == c.t.PieceLength(piece)
      modifies store.Objects(), this`pieceSet, this`goodPieces, this`left, this`saved, peers.Values`sent, p`closed
      ensures Wired() && StoreReady() && store.Objects() == old(store.Objects())
      ensures peers == old(peers) && activePieces == old(activePieces)
      ensures panicked <==> !c.t.HasHash(piece)
      ensures !panicked ==> Finishes(c, s, p.address, piece, Over(store.Contents(), store.Boxes()))
    {
      hide *;
      ghost var s1 := s.(active := s.active - {piece});
      SoundWithout(s, piece);
      StoreApart(objects, s.flat, s.boxes);
      var good;
      panicked, good := Hashing.CheckPiece(content, c.t, piece);
      HeldNow(s, s.flat, s.boxes, objects);
      if panicked {
        return;
      }
      if good {
        HeldNow(s1, s.flat, s.boxes, objects);
        StorePiece(content, piece, now, s1);
        GoodFinishes(c, s, p.address, piece, Over(store.Contents(), store.Boxes()));
      } else {
        CloseConnection(p, s1, objects);
        BadFinishes(c, s, p.address, piece);
      }
    }

    lemma SoundWithout(s: State, piece: nat)
      requires StoreSound(c, s)
      ensures c.Valid() && |s.flat| == c.t.totalSize && StoreSound(c, s.(active := s.active - {piece}))
    {
    }

    /** The connection of a peer that sent a bad piece; its end is read later. */
    method CloseConnection(p: PeerState, ghost s: State, ghost objects: set<object>)
      requires Wired() && Knows(p) && s == Over(s.flat, s.boxes) && StoreIs(s.flat, s.boxes, objects)
      modifies p`closed
      ensures peers == old(peers) && activePieces == old(activePieces)
      ensures Wired() && StoreReady() && store.Objects() == objects && p.address in s.peers
      ensures Over(store.Contents(), store.Boxes()) == WithPeer(s, p.address, s.peers[p.address].(closed := true))
    {
      hide *;
      StoreApart(objects, s.flat, s.boxes);
      ghost var others := SetApart(p, s);
      p.Close();
      PutBack(p, s, others);
      HeldNow(s, s.flat, s.boxes, objects);
    }

    method FinishPiece(p: PeerState, piece: nat, now: int, ghost s: State) returns (panicked: bool)
      requires Wired() && s == Over(s.flat, s.boxes) && StoreHolds(s) && StoreSound(c, s)
      requires Knows(p) && p.address in s.peers
      requires piece in activePieces && piece < c.t.totalPieces && piece !in s.pieceSet
      requires |s.active[piece].buffer| == c.t.PieceLength(piece)
      modifies store.Objects(), this`activePieces, this`pieceSet, this`goodPieces, this`left, this`saved
      modifies peers.Values`sent, p`closed
      ensures Wired() && StoreReady() && store.Objects() == old(store.Objects())
      ensures peers == old(peers) && activePieces == old(activePieces) - {piece}
      ensures panicked <==> !c.t.HasHash(piece)
      ensures !panicked ==> Finishes(c, s, p.address, piece, Over(store.Contents(), store.Boxes()))
    {
      assert c.Valid() && StoreIs(s.flat, s.boxes, store.Objects()) && piece in s.active;
      hide Over, Wired, StoreReady;
      var content := DropComplete(piece, s, store.Objects());
      panicked := KeepIfGood(p, content, piece, now, s, store.Objects());
    }

    method AnswerOverStore(p: PeerState, piece: nat, begin: nat, ghost s: State, ghost objects: set<object>)
      requires Wired() && Knows(p) && s == Over(s.flat, s.boxes) && StoreIs(s.flat, s.boxes, objects)
      requires piece in activePieces && begin / STANDARD_BLOCK_LENGTH < |activePieces[piece].downloaderCount|
      modifies peers.Values`ourRequests, peers.Values`sent, activePieces.Values`downloaderCount
      ensures peers == old(peers) && activePieces == old(activePieces)
      ensures Wired() && StoreIs(s.flat, s.boxes, objects)
      ensures Over(s.flat, s.boxes) == Marked(c, s, p.address, piece, begin)
    {
      hide Over, Wired, StoreReady, StoreIs;
      StoreApart(objects, s.flat, s.boxes);
      AnswerBlock(p, piece, begin, s);
    }

    /** If all its blocks are here, the piece is finished. */
    method FinishIfComplete(p: PeerState, piece: nat, now: int, ghost m: State, ghost objects: set<object>)
      returns (panicked: bool)
      requires Knows(p) && p.address in m.peers
      requires Wired() && m == Over(m.flat, m.boxes) && StoreIs(m.flat, m.boxes, objects) && StoreSound(c, m)
      requires piece in activePieces && piece < c.t.totalPieces && piece !in m.pieceSet
      requires |m.active[piece].buffer| == c.t.PieceLength(piece)
      modifies store.Objects(), this`activePieces, this`pieceSet, this`goodPieces, this`left, this`saved
      modifies peers.Values`sent, p`closed
      ensures Wired() && StoreReady() && store.Objects() == old(store.Objects())
      ensures peers == old(peers) && (activePieces == old(activePieces) || activePieces == old(activePieces) - {piece})
      ensures panicked <==> Complete(m.active[piece].counts) && !c.t.HasHash(piece)
      ensures !panicked ==>
                if Complete(m.active[piece].counts)
                then Finishes(c, m, p.address, piece, Over(store.Contents(), store.Boxes()))
                else m == Over(store.Contents(), store.Boxes())
    {
      hide *;
      Totals(m);
      Blocks(m, piece);
      StoreApart(objects, m.flat, m.boxes);
      var complete := activePieces[piece].IsComplete();
      HeldNow(m, m.flat, m.boxes, objects);
      panicked := false;
      if complete {
        panicked := FinishPiece(p, piece, now, m);
      }
    }

    /** `panicked`: the piece is complete, but the torrent gives no hash for it. */
    method RecordBlock(p: PeerState, piece: nat, begin: nat, now: int, ghost s: State, ghost objects: set<object>)
      returns (panicked: bool)
      requires Wired() && Knows(p) && s == Over(s.flat, s.boxes) && StoreIs(s.flat, s.boxes, objects) && Sound(c, s)
      requires piece in activePieces && begin / STANDARD_BLOCK_LENGTH < |activePieces[piece].downloaderCount|
      requires piece < c.t.totalPieces && |activePieces[piece].buffer| == c.t.PieceLength(piece)
      modifies peers.Values`ourRequests, peers.Values`sent, activePieces.Values`downloaderCount, p`closed
      modifies store.Objects(), this`activePieces, this`pieceSet, this`goodPieces, this`left, this`saved
      ensures Wired() && StoreReady() && store.Objects() == old(store.Objects())
      ensures peers == old(peers) && (activePieces == old(activePieces) || activePieces == old(activePieces) - {piece})
      ensures panicked <==> LastMissing(s, piece, begin) && !c.t.HasHash(piece)
      ensures !panicked ==>
                SessionState.RecordBlock(c, s, p.address, piece, begin, Over(store.Contents(), store.Boxes()))
    {
      hide *;
      HeldNow(s, s.flat, s.boxes, objects);
      Known(p, s);
      Blocks(s, piece);
      Recordable(c, s, p.address, piece, begin);
      AnswerOverStore(p, piece, begin, s, objects);
      HeldNow(s, s.flat, s.boxes, objects);
      panicked := FinishIfComplete(p, piece, now, Marked(c, s, p.address, piece, begin), objects);
      if !panicked {
        Recorded(c, s, p.address, piece, begin, Over(store.Contents(), store.Boxes()));
      }
    }

    // ---- Sending ----

    /** A message read from the store; not ok if the cache runs out of boxes. */
    method ReadBlock(header: seq<byte>, piece: nat, begin: nat, length: nat, now: int, ghost s: State,
                     ghost objects: set<object>)
      returns (ok: bool, buf: seq<byte>)
      requires Owns(s) && StoreIs(s.flat, s.boxes, objects)
      requires piece < c.t.totalPieces && begin < c.t.pieceLength && begin + length <= c.t.pieceLength
      modifies store.Objects()
      ensures peers == old(peers) && activePieces == old(activePieces)
      ensures Owns(s) && StoreIs(s.flat, store.Boxes(), objects)
      ensures forall i | i in store.Boxes() :: i in s.boxes || i == piece
      ensures ok <==> !c.cached || length == 0 || begin + length <= c.t.PieceLength(piece)
      ensures ok ==> buf == header + PaddedRead(s.flat, c.t.Start(piece) + begin, length)
    {
      StoreApart(objects, s.flat, s.boxes);
      ok, buf := store.ReadMessage(c.t, header, piece, begin, length, now);
    }

    method SendOverStore(p: PeerState, message: seq<byte>, ghost s: State, ghost flat: seq<byte>,
                         ghost boxes: map<nat, seq<byte>>, ghost objects: set<object>)
      requires Wired() && Knows(p) && s == Over(s.flat, s.boxes) && StoreIs(flat, boxes, objects)
      modifies peers.Values`sent
      ensures peers == old(peers) && activePieces == old(activePieces)
      ensures Wired() && StoreIs(flat, boxes, objects)
      ensures Over(flat, boxes)
           == WithPeer(s, p.address, Send(s.peers[p.address], message)).(flat := flat, boxes := boxes)
    {
      hide *;
      Known(p, s);
      StoreApart(objects, flat, boxes);
      SendTo(p.address, message, s);
      OverOther(s.flat, s.boxes, flat, boxes);
    }

    method SendRead(p: PeerState, piece: nat, begin: nat, length: nat, ghost header: seq<byte>, buf: seq<byte>,
                    ghost s: State, ghost boxes: map<nat, seq<byte>>, ghost objects: set<object>)
      requires Wired() && Knows(p) && s == Over(s.flat, s.boxes) && StoreIs(s.flat, boxes, objects) && StoreSound(c, s)
      requires piece < c.t.totalPieces && p.address in s.peers && !s.peers[p.address].amChoking
      requires BoxesStored(c, s, piece, boxes)
      requires header == [PIECE] + Wire(piece) + Wire(begin)
      requires buf == header + PaddedRead(s.flat, c.t.Start(piece) + begin, length)
      modifies peers.Values`sent
      ensures peers == old(peers) && activePieces == old(activePieces)
      ensures Wired() && StoreIs(s.flat, boxes, objects)
      ensures Answers(c, s, p.address, piece, begin, length, Over(s.flat, boxes))
    {
      hide *;
      Known(p, s);
      SendOverStore(p, buf, s, s.flat, boxes, objects);
      BlockSent(c, s, p.address, piece, begin, length, header, buf, boxes);
    }

    /** The answer to a request of a peer that is not choked. */
    method SendBlock(p: PeerState, piece: nat, begin: nat, length: nat, now: int, ghost s: State,
                     ghost objects: set<object>)
      returns (ok: bool)
      requires Wired() && Knows(p) && s == Over(s.flat, s.boxes) && StoreIs(s.flat, s.boxes, objects)
      requires StoreSound(c, s)
      requires piece < c.t.totalPieces && begin < c.t.pieceLength && begin + length <= c.t.pieceLength
      requires !p.amChoking
      modifies store.Objects(), peers.Values`sent
      ensures peers == old(peers) && activePieces == old(activePieces)
      ensures Wired() && StoreIs(s.flat, store.Boxes(), objects)
      ensures ok <==> !c.cached || length == 0 || begin + length <= c.t.PieceLength(piece)
      ensures ok ==> Answers(c, s, p.address, piece, begin, length, Over(s.flat, store.Boxes()))
    {
      hide *;
      Known(p, s);
      OwnsFrom(s);
      var header := [PIECE] + Wire(piece) + Wire(begin);
      var buf;
      ok, buf := ReadBlock(header, piece, begin, length, now, s, objects);
      OwnsIsOver(s);
      BoxesAreStored(s, piece, objects);
      ghost var boxes := store.Boxes();
      if ok {
        SendRead(p, piece, begin, length, header, buf, s, boxes, objects);
        HeldNow(s, s.flat, boxes, objects);
      }
    }

    lemma BoxesAreStored(s: State, piece: nat, objects: set<object>)
      requires StoreIs(s.flat, store.Boxes(), objects) && forall i | i in store.Boxes() :: i in s.boxes || i == piece
      ensures BoxesStored(c, s, piece, store.Boxes())
    {
      store.BoxesAreSlices(c.t);
    }

    method SendRequest(p: PeerState, piece: nat, begin: nat, length: nat, now: int, ghost s: State) returns (ok: bool)
      requires Wired() && Knows(p) && s == Over(s.flat, s.boxes) && StoreHolds(s) && StoreSound(c, s)
      requires piece < c.t.totalPieces && begin < c.t.pieceLength && begin + length <= c.t.pieceLength
      modifies store.Objects(), peers.Values`sent
      ensures peers == old(peers) && activePieces == old(activePieces)
      ensures Wired() && StoreReady() && store.Objects() == old(store.Objects())
      ensures ok <==> s.peers[p.address].amChoking || !c.cached || length == 0
                      || begin + length <= c.t.PieceLength(piece)
      ensures ok ==> Answers(c, s, p.address, piece, begin, length, Over(store.Contents(), store.Boxes()))
    {
      hide *;
      Known(p, s);
      Held(s);
      ChokedSend(c, s, p.address, piece, begin, length);
      ghost var objects := store.Objects();
      ok := true;
      if !p.amChoking {
        ok := SendBlock(p, piece, begin, length, now, s, objects);
        HeldNow(s, s.flat, store.Boxes(), objects);
      }
    }

    // ---- Choking ----

    /** The list holds every interested peer once. */
    ghost predicate ListsInterested(list: seq<PeerState>, done: set<Address>)
      reads this`peers, peers.Values
    {
      && NoDuplicates(list)
      && (forall q | q in list :: Knows(q) && q.address in done && q.peerInterested)
      && (forall a | a in peers && a in done && peers[a].peerInterested :: peers[a] in list)
    }

    method InterestedList() returns (list: seq<PeerState>)
      requires DistinctPeers()
      ensures ListsInterested(list, peers.Keys)
    {
      list := [];
      var todo := peers.Keys;
      ghost var done := {};
      while todo != {}
        invariant done + todo == peers.Keys && done !! todo && ListsInterested(list, done)
      {
        var b :| b in todo;
        var peer := peers[b];
        assert peer !in list;
        if peer.peerInterested {
          list := list + [peer];
        }
        todo, done := todo - {b}, done + {b};
      }
      assert done == peers.Keys;
    }

    /** The interested peers in the order in which the policy ranks them. */
    method ChokeOrder(rate: PeerState -> real)
      returns (chokers: array<PeerState>, unchokeCount: nat, ghost candidates: seq<PeerState>)
      requires DistinctPeers() && policy.Valid()
      modifies policy
      ensures fresh(chokers) && ListsInterested(chokers[..], peers.Keys) && ListsInterested(candidates, peers.Keys)
      ensures policy.Valid() && policy.calls == old(policy.calls) + [Choker.Call(rate, candidates, chokers[..])]
      ensures unchokeCount == Min(UPLOAD_SLOTS, chokers.Length) <= chokers.Length
    {
      var list := InterestedList();
      chokers := new PeerState[|list|](i requires 0 <= i < |list| => list[i]);
      assert chokers[..] == list;
      candidates := list;
      unchokeCount := policy.Choke(chokers, rate);
      LastCall(Choker.Call(rate, list, chokers[..]), old(policy.calls));
      PermutationOf(chokers[..], list);
    }

    lemma ListRanks(list: seq<PeerState>, s: State)
      requires Wired() && s == Over(s.flat, s.boxes) && ListsInterested(list, peers.Keys)
      ensures Ranks(s.peers, Addresses(list))
      ensures forall i | 0 <= i < |list| :: list[i].address in peers && peers[list[i].address] == list[i]
    {
      var order := Addresses(list);
      forall i, j | 0 <= i < j < |order|
        ensures order[i] != order[j]
      {
        assert list[i] in list && list[j] in list;
      }
      forall a
        ensures a in Elements(order) <==> a in InterestedPeers(s.peers)
      {
        if a in InterestedPeers(s.peers) {
          assert peers[a].View() == s.peers[a] && peers[a] in list;
          var i :| 0 <= i < |list| && list[i] == peers[a];
          assert order[i] == a;
        }
        if a in order {
          var i :| 0 <= i < |order| && order[i] == a;
          assert list[i] in list && list[i].View() == s.peers[a];
        }
      }
    }

    method ChokeNext(b: Address, shouldChoke: bool, ghost after: map<Address, Peer>, ghost done: set<Address>,
                     ghost s: State)
      requires after.Keys == s.peers.Keys && Reached(s, after, done)
      requires b in s.peers && b !in done && after[b] == SetChoke(s.peers[b], shouldChoke)
      modifies peers.Values`amChoking, peers.Values`sent
      ensures peers == old(peers) && activePieces == old(activePieces)
      ensures Reached(s, after, done + {b})
    {
      hide *;
      ghost var s1 := PartlyDone(s, after, done);
      ReachedAt(s, after, done, b);
      KnownAt(b);
      var peer := peers[b];
      ghost var others := SetApart(peer, s1);
      peer.SetChoke(shouldChoke);
      PutBack(peer, s1, others);
      NowReached(s, after, done, b);
    }

    lemma ReachedAt(s: State, after: map<Address, Peer>, done: set<Address>, b: Address)
      requires after.Keys == s.peers.Keys && Reached(s, after, done) && b in s.peers && b !in done
      ensures var s1 := PartlyDone(s, after, done);
              && Wired() && s1 == Over(s1.flat, s1.boxes) && b in s1.peers && s1.peers[b] == s.peers[b]
              && peers.Keys == s.peers.Keys && s1.flat == s.flat && s1.boxes == s.boxes
    {
    }

    lemma NowReached(s: State, after: map<Address, Peer>, done: set<Address>, b: Address)
      requires after.Keys == s.peers.Keys == peers.Keys && Wired() && b in s.peers
      requires Over(s.flat, s.boxes) == WithPeer(PartlyDone(s, after, done), b, after[b])
      ensures Reached(s, after, done + {b})
    {
      PartlyNext(s.peers, after, done, b);
    }

    /** Every interested peer is told; the first ones of the list are unchoked. */
    method TellChoked(chokers: array<PeerState>, unchokeCount: nat, ghost list: seq<PeerState>, ghost s: State)
      requires Wired() && s == Over(s.flat, s.boxes) && chokers[..] == list && unchokeCount <= |list|
      requires Ranks(s.peers, Addresses(list))
      modifies peers.Values`amChoking, peers.Values`sent
      ensures peers == old(peers) && activePieces == old(activePieces) && Wired()
      ensures Over(s.flat, s.boxes) == s.(peers := Rechoked(s.peers, Elements(Addresses(list)[..unchokeCount])))
    {
      hide *;
      ghost var order := Addresses(list);
      ghost var after := Rechoked(s.peers, Elements(order[..unchokeCount]));
      RechokedKeys(s.peers, Elements(order[..unchokeCount]));
      ReachedNone(s, after);
      assert Elements(order[..0]) == {};
      for i := 0 to chokers.Length
        invariant chokers[..] == list && peers == old(peers) && activePieces == old(activePieces)
        invariant Reached(s, after, Elements(order[..i]))
      {
        NextRechoked(s.peers, order, unchokeCount, i);
        ChokeNext(chokers[i].address, i >= unchokeCount, after, Elements(order[..i]), s);
      }
      assert order[..|order|] == order;
      ReachedRanked(s, order, unchokeCount);
    }

    lemma ReachedRanked(s: State, order: seq<Address>, n: nat)
      requires Ranks(s.peers, order) && n <= |order|
      requires Reached(s, Rechoked(s.peers, Elements(order[..n])), Elements(order))
      ensures Wired() && Over(s.flat, s.boxes) == s.(peers := Rechoked(s.peers, Elements(order[..n])))
    {
      AllRechoked(s.peers, order, n);
    }

    /** One call of the policy, with all interested peers as candidates. The first four of its ranking are unchoked and
        the others are choked, so no choked peer that is interested is faster than one of the first three. */
    method ChokePeers(rate: PeerState -> real, ghost s: State) returns (ghost call: Choker.Call<PeerState>)
      requires Wired() && s == Over(s.flat, s.boxes) && policy.Valid()
      modifies policy, peers.Values`amChoking, peers.Values`sent
      ensures peers == old(peers) && activePieces == old(activePieces) && Wired()
      ensures policy.Valid() && policy.calls == old(policy.calls) + [call] && call.rate == rate
      ensures Ranks(s.peers, Addresses(call.before)) && Ranks(s.peers, Addresses(call.after))
      ensures var unchoked := Elements(Addresses(call.after)[..Min(UPLOAD_SLOTS, |call.after|)]);
              Over(s.flat, s.boxes) == s.(peers := Rechoked(s.peers, unchoked))
      ensures SessionState.ChokePeers(s, Over(s.flat, s.boxes))
      ensures NoneFaster(rate, call.after)
    {
      hide *;
      OwnsFrom(s);
      WiredPeers();
      var chokers, unchokeCount;
      ghost var candidates;
      chokers, unchokeCount, candidates := ChokeOrder(rate);
      OwnsIsOver(s);
      ghost var ranked := chokers[..];
      call := Choker.Call(rate, candidates, ranked);
      ListRanks(candidates, s);
      ListRanks(ranked, s);
      LastCall(call, old(policy.calls));
      TellChoked(chokers, unchokeCount, ranked, s);
      FirstChosen(s, Addresses(ranked), unchokeCount);
      TopThree(rate, ranked, s);
    }

    lemma LastCall(call: Choker.Call<PeerState>, before: seq<Choker.Call<PeerState>>)
      requires policy.Valid() && policy.calls == before + [call]
      ensures Choker.TopSorted(call.rate, call.after) && multiset(call.after) == multiset(call.before)
    {
      assert policy.calls[|before|] == call;
    }

    /** No interested peer that is choked is faster than one of the first three. */
    ghost predicate NoneFaster(rate: PeerState -> real, ranked: seq<PeerState>)
      reads this`peers, peers.Values
    {
      forall a, top | a in peers && peers[a].peerInterested && peers[a].amChoking && top in Choker.Top(ranked) ::
        rate(top) >= rate(peers[a])
    }

    lemma TopThree(rate: PeerState -> real, ranked: seq<PeerState>, s: State)
      requires Wired() && Ranks(s.peers, Addresses(ranked)) && Choker.TopSorted(rate, ranked)
      requires forall i | 0 <= i < |ranked| :: Knows(ranked[i])
      requires var unchoked := Elements(Addresses(ranked)[..Min(UPLOAD_SLOTS, |ranked|)]);
               Over(s.flat, s.boxes) == s.(peers := Rechoked(s.peers, unchoked))
      ensures NoneFaster(rate, ranked)
    {
      var order := Addresses(ranked);
      var unchoked := Elements(order[..Min(UPLOAD_SLOTS, |ranked|)]);
      forall a, top | a in peers && peers[a].peerInterested && peers[a].amChoking && top in Choker.Top(ranked)
        ensures rate(top) >= rate(peers[a])
      {
        var i :| 0 <= i < |Choker.Top(ranked)| && Choker.Top(ranked)[i] == top;
        ChokedIsLate(a, s, unchoked);
        assert a in Elements(order);
        var j :| 0 <= j < |order| && order[j] == a;
        assert order[j] in order[..Min(UPLOAD_SLOTS, |ranked|)] <==> j < Min(UPLOAD_SLOTS, |ranked|);
        assert ranked[j] == peers[a];
      }
    }

    lemma ChokedIsLate(a: Address, s: State, unchoked: set<Address>)
      requires a in peers && peers[a].peerInterested && peers[a].amChoking
      requires Over(s.flat, s.boxes) == s.(peers := Rechoked(s.peers, unchoked))
      ensures a in InterestedPeers(s.peers) && a !in unchoked
    {
      assert PeerViews()[a] == Rechoked(s.peers, unchoked)[a];
    }

    lemma WiredPeers()
      requires Wired()
      ensures DistinctPeers()
    {
    }

    // ---- One peer's flags ----

    method SetPeerChoking(p: PeerState, choking: bool, ghost s: State)
      requires Wired() && Knows(p) && s == Over(s.flat, s.boxes)
      modifies p`peerChoking
      ensures peers == old(peers) && activePieces == old(activePieces) && Wired()
      ensures Over(s.flat, s.boxes) == WithPeer(s, p.address, s.peers[p.address].(peerChoking := choking))
    {
      hide Over, OthersMatch, Wired, Knows;
      ghost var others := SetApart(p, s);
      p.peerChoking := choking;
      PutBack(p, s, others);
    }

    method SetPeerInterested(p: PeerState, interested: bool, ghost s: State)
      requires Wired() && Knows(p) && s == Over(s.flat, s.boxes)
      modifies p`peerInterested
      ensures peers == old(peers) && activePieces == old(activePieces) && Wired()
      ensures Over(s.flat, s.boxes) == WithPeer(s, p.address, s.peers[p.address].(peerInterested := interested))
    {
      hide Over, OthersMatch, Wired, Knows;
      ghost var others := SetApart(p, s);
      p.peerInterested := interested;
      PutBack(p, s, others);
    }

    method EndBitfieldTime(p: PeerState, ghost s: State)
      requires Wired() && Knows(p) && s == Over(s.flat, s.boxes)
      modifies p`canReceiveBitfield
      ensures peers == old(peers) && activePieces == old(activePieces) && Wired()
      ensures Over(s.flat, s.boxes) == Late(s, p.address)
    {
      hide Over, OthersMatch, Wired, Knows;
      ghost var others := SetApart(p, s);
      p.canReceiveBitfield := false;
      PutBack(p, s, others);
    }

    /** The piece is one the peer has. */
    method NoteHave(p: PeerState, n: nat, ghost s: State)
      requires pieceSet == s.pieceSet
      modifies p`have, p`amInterested, p`sent
      ensures p.View() == HasPiece(s, old(p.View()), n)
    {
      p.have := p.have + {n};
      if !p.amInterested && n !in pieceSet {
        p.SetInterested(true);
      }
    }

    method AddHave(p: PeerState, n: nat, ghost s: State)
      requires Wired() && Knows(p) && s == Over(s.flat, s.boxes)
      modifies p`have, p`amInterested, p`sent
      ensures peers == old(peers) && activePieces == old(activePieces) && Wired()
      ensures Over(s.flat, s.boxes) == WithPeer(s, p.address, HasPiece(s, s.peers[p.address], n))
    {
      hide *;
      Totals(s);
      ghost var others := SetApart(p, s);
      NoteHave(p, n, s);
      PutBack(p, s, others);
    }

    method IsInteresting(p: PeerState) returns (interesting: bool)
      requires p.have <= c.t.AllPieces()
      ensures interesting <==> Interesting(pieceSet, p.View())
    {
      for i := 0 to c.t.totalPieces
        invariant forall j: nat | j < i :: j in pieceSet || j !in p.have
      {
        if i !in pieceSet && i in p.have {
          return true;
        }
      }
      return false;
    }

    /** The peer has exactly these pieces. */
    method SetHave(p: PeerState, pieces: set<nat>, ghost s: State)
      requires pieces <= c.t.AllPieces() && pieceSet == s.pieceSet
      modifies p`have, p`amInterested, p`sent
      ensures p.View() == HasPieces(s, old(p.View()), pieces) && p.have == pieces
    {
      p.have := pieces;
      CheckInteresting(p);
    }

    method ReplaceHave(p: PeerState, pieces: set<nat>, ghost s: State)
      requires Wired() && Knows(p) && s == Over(s.flat, s.boxes) && pieces <= c.t.AllPieces()
      modifies p`have, p`amInterested, p`sent
      ensures peers == old(peers) && activePieces == old(activePieces) && Wired()
      ensures Over(s.flat, s.boxes) == WithPeer(s, p.address, HasPieces(s, s.peers[p.address], pieces))
      ensures p.have == pieces
    {
      hide *;
      Totals(s);
      ghost var others := SetApart(p, s);
      SetHave(p, pieces, s);
      PutBack(p, s, others);
    }

    method CheckInteresting(p: PeerState)
      requires p.have <= c.t.AllPieces()
      modifies p`amInterested, p`sent
      ensures p.View() == SetInterested(old(p.View()), Interesting(pieceSet, old(p.View())))
    {
      var interesting := IsInteresting(p);
      p.SetInterested(interesting);
    }

    // ---- Messages ----

    method DoChoke(p: PeerState, ghost s: State)
      requires Wired() && Knows(p) && s == Over(s.flat, s.boxes) && Sound(c, s)
      modifies p`peerChoking, p`ourRequests, activePieces.Values`downloaderCount
      ensures peers == old(peers) && activePieces == old(activePieces) && Wired()
      ensures Over(s.flat, s.boxes) == SessionState.DoChoke(s, p.address)
    {
      hide Over, Wired, Knows, Sound, CanForget, Forgotten, SessionState.DoChoke, Matches;
      ghost var a := p.address;
      Known(p, s);
      ghost var s1 := WithPeer(s, a, s.peers[a].(peerChoking := true));
      SetPeerChoking(p, true, s);
      ForgettableAfter(p, s, s1);
      RemoveRequests(p, s1);
      ChokeUnfolds(s, a);
    }

    lemma ForgettableAfter(p: PeerState, s: State, s1: State)
      requires Sound(c, s) && Knows(p) && p.address in s.peers
      requires s1 == WithPeer(s, p.address, s.peers[p.address].(peerChoking := true)) && s1 == Over(s1.flat, s1.boxes)
      ensures CanForget(s1, p.ourRequests.Keys) && s1 == Over(s1.flat, s1.boxes)
    {
      assert PeerOk(c, s.pieceSet, s.peers[p.address]);
      assert p.View() == s1.peers[p.address];
    }

    method HandleChoke(p: PeerState, m: seq<byte>, now: int, ghost s: State) returns (outcome: Outcome)
      requires Wired() && Knows(p) && s == Over(s.flat, s.boxes) && Arrives(c, s, p.address, m) && m[0] == CHOKE
      modifies p`peerChoking, p`ourRequests, p`canReceiveBitfield, activePieces.Values`downloaderCount
      ensures peers == old(peers) && activePieces == old(activePieces) && Wired()
      ensures Handled(c, s, p.address, m, now, outcome, Over(s.flat, s.boxes))
    {
      hide Over, Wired, Sound, Arrives, Handled;
      if |m| != 1 {
        WrongLength(c, s, p.address, m, now);
        return Fail(UnexpectedLength);
      }
      ArrivesSound(c, s, p.address, m);
      DoChoke(p, s);
      EndBitfieldTime(p, SessionState.DoChoke(s, p.address));
      ChokeHandled(c, s, p.address, m, now);
      outcome := Proceed;
    }

    method RequestMore(p: PeerState, now: int, ghost s: State)
      requires Wired() && Knows(p) && s == Over(s.flat, s.boxes) && Sound(c, s)
      modifies this`activePieces, p`ourRequests, p`sent, p`amInterested, activePieces.Values`downloaderCount
      ensures Wired() && Grown(old(activePieces)) && peers == old(peers)
      ensures Requests(c, s, p.address, now, Over(s.flat, s.boxes))
    {
      hide Over, Wired, Knows, Sound, Requests, SessionState.RequestBlock, Matches, ActivesOk;
      Known(p, s);
      CanRequest(p, s);
      RequestBlock(p, now, s);
      RequestsBlock(c, s, p.address, now, Over(s.flat, s.boxes));
    }

    lemma CanRequest(p: PeerState, s: State)
      requires Sound(c, s) && Knows(p) && s == Over(s.flat, s.boxes)
      ensures c.Valid() && p.have <= c.t.AllPieces() && ActivesOk(c, s.pieceSet, s.active)
    {
      assert p.View() == s.peers[p.address];
      assert PeerOk(c, s.pieceSet, s.peers[p.address]);
    }

    /** Two requests, as many as we have outstanding at a peer. */
    method RequestTwice(p: PeerState, now: int, ghost s: State) returns (ghost s1: State, ghost s2: State)
      requires Wired() && Knows(p) && s == Over(s.flat, s.boxes) && Sound(c, s)
      modifies this`activePieces, p`ourRequests, p`sent, p`amInterested, activePieces.Values`downloaderCount
      ensures Wired() && Grown(old(activePieces)) && peers == old(peers)
      ensures Requests(c, s, p.address, now, s1) && Requests(c, s1, p.address, now, s2) && s2 == Over(s.flat, s.boxes)
    {
      hide Over, Wired, Sound, SessionState.RequestBlock;
      RequestMore(p, now, s);
      s1 := Over(s.flat, s.boxes);
      RequestMore(p, now, s1);
      s2 := Over(s.flat, s.boxes);
    }

    method HandleUnchoke(p: PeerState, m: seq<byte>, now: int, ghost s: State) returns (outcome: Outcome)
      requires Wired() && Knows(p) && s == Over(s.flat, s.boxes) && Arrives(c, s, p.address, m) && m[0] == UNCHOKE
      modifies this`activePieces, p`peerChoking, p`canReceiveBitfield
      modifies p`ourRequests, p`sent, p`amInterested, activePieces.Values`downloaderCount
      ensures Wired() && Grown(old(activePieces)) && peers == old(peers)
      ensures Handled(c, s, p.address, m, now, outcome, Over(s.flat, s.boxes))
    {
      hide Over, Wired, Sound, Arrives, Handled, Requests;
      ghost var a := p.address;
      ArrivesSound(c, s, a, m);
      if |m| != 1 {
        WrongLength(c, s, a, m, now);
        return Fail(UnexpectedLength);
      }
      SetPeerChoking(p, false, s);
      UnchokedSound(c, s, a);
      ghost var s1, s2 := RequestTwice(p, now, WithPeer(s, a, s.peers[a].(peerChoking := false)));
      RequestsFrame(c, WithPeer(s, a, s.peers[a].(peerChoking := false)), a, now, s1, s2);
      EndBitfieldTime(p, s2);
      UnchokeHandled(c, s, a, m, now, s1, s2);
      outcome := Proceed;
    }

    /** `interested` tells which of the two messages it is. */
    method HandleInterest(p: PeerState, m: seq<byte>, interested: bool, now: int,
                          rate: PeerState -> real, ghost s: State)
      returns (outcome: Outcome)
      requires Wired() && Knows(p) && s == Over(s.flat, s.boxes) && Arrives(c, s, p.address, m)
      requires m[0] == if interested then INTERESTED else NOT_INTERESTED
      requires policy.Valid()
      modifies policy, p`peerInterested, p`canReceiveBitfield, peers.Values`amChoking, peers.Values`sent
      ensures Wired() && activePieces == old(activePieces) && peers == old(peers)
      ensures Handled(c, s, p.address, m, now, outcome, Over(s.flat, s.boxes))
      ensures policy.Valid() && old(policy.calls) <= policy.calls
    {
      hide Over, Wired, Sound, Arrives, Handled, SessionState.ChokePeers;
      ghost var a := p.address;
      ArrivesSound(c, s, a, m);
      if |m| != 1 {
        WrongLength(c, s, a, m, now);
        return Fail(UnexpectedLength);
      }
      SetPeerInterested(p, interested, s);
      var _ := ChokePeers(rate, WithPeer(s, a, s.peers[a].(peerInterested := interested)));
      ghost var s1 := Over(s.flat, s.boxes);
      OverFields(s.flat, s.boxes);
      Known(p, s1);
      EndBitfieldTime(p, s1);
      InterestHandled(c, s, a, m, now, interested, s1);
      outcome := Proceed;
    }

    lemma OverFields(flat: seq<byte>, boxes: map<nat, seq<byte>>)
      ensures Over(flat, boxes).flat == flat && Over(flat, boxes).boxes == boxes
    {
    }

    method HandleHave(p: PeerState, m: seq<byte>, now: int, ghost s: State) returns (outcome: Outcome)
      requires Wired() && Knows(p) && s == Over(s.flat, s.boxes) && Arrives(c, s, p.address, m) && m[0] == HAVE
      modifies p`have, p`amInterested, p`sent, p`canReceiveBitfield
      ensures Wired() && activePieces == old(activePieces) && peers == old(peers)
      ensures Handled(c, s, p.address, m, now, outcome, Over(s.flat, s.boxes))
    {
      hide Over, Wired, Sound, Arrives, Handled, HasPiece, Matches;
      ghost var a := p.address;
      ArrivesSound(c, s, a, m);
      if |m| != 5 {
        WrongLength(c, s, a, m, now);
        return Fail(UnexpectedLength);
      }
      HaveHandled(c, s, a, m, now);
      var n := Field(m, 1);
      if n < c.t.totalPieces {
        AddHave(p, n, s);
        EndBitfieldTime(p, WithPeer(s, a, HasPiece(s, s.peers[a], n)));
        outcome := Proceed;
      } else {
        outcome := Fail(HaveOutOfRange);
      }
    }

    method HandleBitfield(p: PeerState, m: seq<byte>, now: int, ghost s: State) returns (outcome: Outcome)
      requires Wired() && Knows(p) && s == Over(s.flat, s.boxes) && Arrives(c, s, p.address, m) && m[0] == BITFIELD
      modifies p`have, p`amInterested, p`sent, p`canReceiveBitfield
      ensures Wired() && activePieces == old(activePieces) && peers == old(peers)
      ensures Handled(c, s, p.address, m, now, outcome, Over(s.flat, s.boxes))
      ensures outcome == Proceed <==> old(p.canReceiveBitfield) && IsBitfield(c, m)
      ensures p.have == if outcome == Proceed then Bits(c, m) else old(p.have)
    {
      hide Over, Wired, Sound, Arrives, Handled, HasPieces, Matches, IsBitfield, Bitsets.Decode;
      ghost var a := p.address;
      ArrivesSound(c, s, a, m);
      BitfieldRead(c, m);
      BadBitfield(c, s, a, m, now);
      Known(p, s);
      if !p.canReceiveBitfield {
        return Fail(LateBitfield);
      }
      var pieces := DecodeBitfield(m[1..]);
      if pieces == None {
        return Fail(InvalidBitfield);
      }
      BitfieldHandled(c, s, a, m, now, pieces.value);
      ReplaceHave(p, pieces.value, s);
      EndBitfieldTime(p, WithPeer(s, a, HasPieces(s, s.peers[a], pieces.value)));
      outcome := Proceed;
    }

    /** The set that a payload stands for. */
    method DecodeBitfield(data: seq<byte>) returns (pieces: Option<set<nat>>)
      ensures pieces == Bitsets.Decode(c.t.totalPieces, data)
      ensures pieces.Some? ==> pieces.value <= c.t.AllPieces()
    {
      var bits := Bitsets.Bitset.FromBytes(c.t.totalPieces, data);
      if bits == null {
        return None;
      }
      var elems := Bitsets.SetOf(bits);
      pieces := Some(elems);
    }

    method TellBitfield(p: PeerState, ghost s: State)
      requires Wired() && Knows(p) && s == Over(s.flat, s.boxes)
      modifies p`sent
      ensures Wired() && activePieces == old(activePieces) && peers == old(peers)
      ensures Over(s.flat, s.boxes) == WithPeer(s, p.address, Send(s.peers[p.address], BitfieldMessage(c, s.pieceSet)))
    {
      hide *;
      Totals(s);
      ghost var others := SetApart(p, s);
      p.SendBitfield(c, pieceSet);
      PutBack(p, s, others);
    }

    method HandleExtension(p: PeerState, m: seq<byte>, now: int, ghost s: State) returns (outcome: Outcome)
      requires Wired() && Knows(p) && s == Over(s.flat, s.boxes) && Arrives(c, s, p.address, m) && m[0] == EXTENSION
      modifies p`sent
      ensures Wired() && activePieces == old(activePieces) && peers == old(peers)
      ensures Handled(c, s, p.address, m, now, outcome, Over(s.flat, s.boxes))
    {
      hide Sound, Arrives, Handled, Wired, Over;
      if |m| == 1 {
        ExtensionCrashes(c, s, p.address, m, now);
        return Crash;
      }
      HasFirst(c, s, p.address, m);
      ExtensionHandled(c, s, p.address, m, now);
      TellBitfield(p, s);
      outcome := Proceed;
    }

    method CheckRange32(begin: nat, length: nat) returns (error: Option<MessageError>)
      ensures error == CheckSpan(c, begin, length)
    {
      if begin >= c.t.pieceLength {
        return Some(BeginOutOfRange);
      }
      if begin + length > c.t.pieceLength {
        return Some(EndOutOfRange);
      }
      return None;
    }

    /** The checks that REQUEST and CANCEL share. */
    method CheckOurs(m: seq<byte>, ghost s: State) returns (error: Option<MessageError>)
      requires pieceSet == s.pieceSet
      ensures error == CheckOurBlock(c, s, m)
      ensures error == None <==>
                && |m| == 13 && Field(m, 1) < c.t.totalPieces && Field(m, 1) in pieceSet
                && Field(m, 5) < c.t.pieceLength && Field(m, 5) + Field(m, 9) <= c.t.pieceLength
    {
      if |m| != 13 {
        return Some(UnexpectedLength);
      }
      var index, begin, length := Field(m, 1), Field(m, 5), Field(m, 9);
      if index >= c.t.totalPieces {
        return Some(PieceOutOfRange);
      }
      if index !in pieceSet {
        return Some(NotOurPiece);
      }
      error := CheckRange32(begin, length);
    }

    method HandleCancel(p: PeerState, m: seq<byte>, now: int, ghost s: State) returns (outcome: Outcome)
      requires Wired() && Knows(p) && s == Over(s.flat, s.boxes) && Arrives(c, s, p.address, m) && m[0] == CANCEL
      modifies p`canReceiveBitfield
      ensures Wired() && activePieces == old(activePieces) && peers == old(peers)
      ensures Handled(c, s, p.address, m, now, outcome, Over(s.flat, s.boxes))
    {
      hide Sound, Arrives, Handled, Wired, Over, CheckOurBlock, Matches;
      Totals(s);
      var error := CheckOurs(m, s);
      if error.Some? {
        BadCancel(c, s, p.address, m, now, error.value);
        return Fail(error.value);
      }
      PassedOurs(c, s, m);
      if Field(m, 9) != STANDARD_BLOCK_LENGTH {
        BadCancel(c, s, p.address, m, now, UnexpectedBlockLength);
        return Fail(UnexpectedBlockLength);
      }
      CancelHandled(c, s, p.address, m, now);
      EndBitfieldTime(p, s);
      outcome := Proceed;
    }

    lemma Totals(s: State)
      requires s == Over(s.flat, s.boxes)
      ensures pieceSet == s.pieceSet && activePieces.Keys == s.active.Keys
    {
    }

    method HandlePort(p: PeerState, m: seq<byte>, now: int, ghost s: State) returns (outcome: Outcome)
      requires Wired() && Knows(p) && s == Over(s.flat, s.boxes) && Arrives(c, s, p.address, m) && m[0] == PORT
      modifies p`canReceiveBitfield
      ensures Wired() && activePieces == old(activePieces) && peers == old(peers)
      ensures Handled(c, s, p.address, m, now, outcome, Over(s.flat, s.boxes))
    {
      hide Sound, Arrives, Handled, Wired, Over;
      ArrivesSound(c, s, p.address, m);
      if |m| != 3 {
        WrongLength(c, s, p.address, m, now);
        return Fail(UnexpectedLength);
      }
      EndBitfieldTime(p, s);
      PortHandled(c, s, p.address, m, now);
      outcome := Proceed;
    }

    method HandleRequest(p: PeerState, m: seq<byte>, now: int, ghost s: State) returns (outcome: Outcome)
      requires Wired() && Knows(p) && s == Over(s.flat, s.boxes) && StoreHolds(s) && Arrives(c, s, p.address, m)
      requires m[0] == REQUEST
      modifies store.Objects(), peers.Values`sent
      ensures peers == old(peers) && activePieces == old(activePieces)
      ensures Wired() && StoreReady() && store.Objects() == old(store.Objects())
      ensures Handled(c, s, p.address, m, now, outcome, Over(store.Contents(), store.Boxes()))
    {
      hide Sound, Arrives, Handled, Wired, Over, CheckOurBlock, Matches, StoreReady, StoreSound, StoreIs, Answers;
      Totals(s);
      var error := CheckOurs(m, s);
      if error.Some? {
        BadRequest(c, s, p.address, m, now, error.value);
        return Fail(error.value);
      }
      PassedOurs(c, s, m);
      ArrivesSound(c, s, p.address, m);
      SoundStore(c, s);
      var ok := SendRequest(p, Field(m, 1), Field(m, 5), Field(m, 9), now, s);
      ghost var s' := Over(store.Contents(), store.Boxes());
      if ok {
        RequestHandled(c, s, p.address, m, now, s');
        outcome := Proceed;
      } else {
        RequestCrashes(c, s, p.address, m, now, s');
        outcome := Crash;
      }
    }

    /** The checks of a PIECE message; none of them is made for a piece that we have. */
    method CheckPieceBlock(m: seq<byte>, ghost s: State) returns (error: Option<MessageError>)
      requires pieceSet == s.pieceSet && activePieces.Keys == s.active.Keys
      ensures error == CheckPieceMessage(c, s, m)
    {
      if |m| < 9 {
        return Some(UnexpectedLength);
      }
      var index, begin, length := Field(m, 1), Field(m, 5), |m| - 9;
      if index >= c.t.totalPieces {
        return Some(PieceOutOfRange);
      }
      if index in pieceSet {
        return None;
      }
      error := CheckRange32(begin, length);
      if error.Some? {
        return;
      }
      if length > MAX_BLOCK_LENGTH {
        return Some(BlockTooLarge);
      }
      if index !in activePieces {
        return Some(UnexpectedPiece);
      }
      return None;
    }

    method CopyBlock(piece: nat, begin: nat, data: seq<byte>, ghost s: State, ghost objects: set<object>)
      requires Wired() && piece in activePieces && s == Over(s.flat, s.boxes) && StoreIs(s.flat, s.boxes, objects)
      requires begin <= |activePieces[piece].buffer| == |s.active[piece].buffer|
      modifies activePieces.Values`buffer
      ensures peers == old(peers) && activePieces == old(activePieces)
      ensures Wired() && StoreIs(s.flat, s.boxes, objects) && Over(s.flat, s.boxes) == Copied(s, piece, begin, data)
    {
      StoreApart(objects, s.flat, s.boxes);
      CopyInto(piece, begin, data, s);
    }

    method CopyInto(piece: nat, begin: nat, data: seq<byte>, ghost s: State)
      requires Wired() && piece in activePieces && s == Over(s.flat, s.boxes)
      requires begin <= |activePieces[piece].buffer| == |s.active[piece].buffer|
      modifies activePieces.Values`buffer
      ensures peers == old(peers) && activePieces == old(activePieces)
      ensures Wired() && Over(s.flat, s.boxes) == Copied(s, piece, begin, data)
    {
      assert activePieces[piece] in activePieces.Values;
      activePieces[piece].CopyIn(begin, data);
      OnlyActive(piece, s);
    }

    /** After a block: another request, and no bitfield any more. */
    method FollowUp(p: PeerState, now: int, ghost s: State, ghost objects: set<object>) returns (ghost s2: State)
      requires Wired() && Knows(p) && s == Over(s.flat, s.boxes) && Sound(c, s) && StoreIs(s.flat, s.boxes, objects)
      modifies this`activePieces, p`ourRequests, p`sent, p`amInterested, p`canReceiveBitfield
      modifies activePieces.Values`downloaderCount
      ensures Wired() && Grown(old(activePieces)) && peers == old(peers) && StoreIs(s.flat, s.boxes, objects)
      ensures Requests(c, s, p.address, now, s2) && Over(s.flat, s.boxes) == Late(s2, p.address)
    {
      hide Over, Wired, Sound, Matches, Requests, StoreIs;
      StoreApart(objects, s.flat, s.boxes);
      assert p in peers.Values;
      RequestMore(p, now, s);
      s2 := Over(s.flat, s.boxes);
      OverFields(s.flat, s.boxes);
      Known(p, s2);
      EndBitfieldTime(p, s2);
    }

    lemma IsOver(s: State, flat: seq<byte>, boxes: map<nat, seq<byte>>, objects: set<object>)
      requires s == Over(store.Contents(), store.Boxes()) && StoreReady() && objects == store.Objects()
      ensures s == Over(s.flat, s.boxes) && StoreIs(s.flat, s.boxes, objects)
    {
    }

    /** The block is copied and recorded. */
    method CopyAndRecord(p: PeerState, m: seq<byte>, now: int, ghost s: State, ghost objects: set<object>)
      returns (panicked: bool, ghost s1: State)
      requires Wired() && Knows(p) && p.address in s.peers && s == Over(s.flat, s.boxes)
      requires StoreIs(s.flat, s.boxes, objects) && Sound(c, s)
      requires |m| >= 9 && InBuffer(c, m) && Field(m, 1) in s.active
      modifies peers.Values`ourRequests, peers.Values`sent
      modifies activePieces.Values`downloaderCount, activePieces.Values`buffer
      modifies store.Objects(), this`activePieces, this`pieceSet, this`goodPieces, this`left, this`saved, p`closed
      ensures Wired() && peers == old(peers)
      ensures forall k | k in activePieces :: k in old(activePieces) && activePieces[k] == old(activePieces[k])
      ensures s1 == Over(s1.flat, s1.boxes) && StoreIs(s1.flat, s1.boxes, objects)
      ensures panicked <==> Hashless(c, s, m)
      ensures !panicked ==> Records(c, s, p.address, m, s1)
    {
      hide Over, Wired, Sound, Matches, StoreIs, StoreReady, InBuffer, Records, SessionState.RecordBlock, Hashless;
      hide LastMissing, Torrent.HasHash;
      var piece, begin, data := Field(m, 1), Field(m, 5), m[9..];
      FitsBuffer(c, s, m);
      HashlessCopied(c, s, m);
      ghost var s0 := Copied(s, piece, begin, data);
      Blocks(s, piece);
      HeldNow(s, s.flat, s.boxes, objects);
      CopyBlock(piece, begin, data, s, objects);
      HeldNow(s, s.flat, s.boxes, objects);
      CopiedSound(c, s, piece, begin, data);
      Blocks(s0, piece);
      panicked := RecordBlock(p, piece, begin, now, s0, objects);
      s1 := Over(store.Contents(), store.Boxes());
      IsOver(s1, s1.flat, s1.boxes, objects);
      if !panicked {
        RecordsBlock(c, s, p.address, m, s1);
      }
    }

    lemma Blocks(s: State, piece: nat)
      requires s == Over(s.flat, s.boxes) && piece in s.active
      ensures piece in activePieces && activePieces[piece].downloaderCount == s.active[piece].counts
      ensures activePieces[piece].buffer == s.active[piece].buffer
    {
      assert activePieces[piece].View() == s.active[piece];
    }

    /** A block of a piece that is being downloaded. Past its buffer or its blocks the program panics, and so it does
        when the block completes a piece for which the torrent gives no hash. */
    method ReceiveBlock(p: PeerState, m: seq<byte>, now: int, ghost s: State, ghost objects: set<object>)
      returns (outcome: Outcome)
      requires Wired() && Knows(p) && s == Over(s.flat, s.boxes) && StoreIs(s.flat, s.boxes, objects)
      requires Arrives(c, s, p.address, m) && m[0] == PIECE && CheckPieceMessage(c, s, m) == None
      requires |m| >= 9 && Field(m, 1) !in s.pieceSet
      modifies p`amInterested, p`canReceiveBitfield, p`closed, peers.Values`ourRequests, peers.Values`sent
      modifies activePieces.Values`downloaderCount, activePieces.Values`buffer
      modifies store.Objects(), this`activePieces, this`pieceSet, this`goodPieces, this`left, this`saved
      ensures Renewed(old(activePieces))
      ensures peers == old(peers) && Wired() && StoreIs(store.Contents(), store.Boxes(), objects)
      ensures Handled(c, s, p.address, m, now, outcome, Over(store.Contents(), store.Boxes()))
    {
      hide Over, Wired, Sound, Matches, StoreIs, StoreReady, InBuffer, Records, Arrives, Handled, CheckPieceMessage;
      hide Requests, Hashless, LastMissing, Torrent.PieceLength, Torrent.BlockCount, ActiveOk, Field;
      var index, begin := Field(m, 1), Field(m, 5);
      ghost var a := p.address;
      ArrivesSound(c, s, a, m);
      PassedPiece(c, s, m);
      Blocks(s, index);
      ActiveShape(c, s, index);
      HeldNow(s, s.flat, s.boxes, objects);
      IsInBuffer(c, m);
      var v := activePieces[index];
      if begin > |v.buffer| || begin / STANDARD_BLOCK_LENGTH >= |v.downloaderCount| {
        PieceCrashes(c, s, a, m, now, Over(store.Contents(), store.Boxes()));
        return Crash;
      }
      assert p in peers.Values;
      var panicked;
      ghost var s1;
      panicked, s1 := CopyAndRecord(p, m, now, s, objects);
      if panicked {
        HeldNow(s, s1.flat, s1.boxes, objects);
        PieceCrashes(c, s, a, m, now, Over(store.Contents(), store.Boxes()));
        return Crash;
      }
      RecordsSound(c, s, a, m, s1);
      ghost var s2 := FollowUp(p, now, s1, objects);
      HeldNow(s, s1.flat, s1.boxes, objects);
      ReceiveHandled(c, s, a, m, now, s1, s2);
      outcome := Proceed;
    }

    method HandlePiece(p: PeerState, m: seq<byte>, now: int, ghost s: State, ghost objects: set<object>)
      returns (outcome: Outcome)
      requires Wired() && Knows(p) && s == Over(s.flat, s.boxes) && StoreIs(s.flat, s.boxes, objects)
      requires Arrives(c, s, p.address, m) && m[0] == PIECE
      modifies p`amInterested, p`canReceiveBitfield, p`closed, peers.Values`ourRequests, peers.Values`sent
      modifies activePieces.Values`downloaderCount, activePieces.Values`buffer
      modifies store.Objects(), this`activePieces, this`pieceSet, this`goodPieces, this`left, this`saved
      ensures Renewed(old(activePieces))
      ensures peers == old(peers) && Wired() && StoreIs(store.Contents(), store.Boxes(), objects)
      ensures Handled(c, s, p.address, m, now, outcome, Over(store.Contents(), store.Boxes()))
    {
      hide Over, Wired, Sound, Matches, StoreIs, StoreReady, Arrives, Handled, CheckPieceMessage, Requests;
      Totals(s);
      HeldNow(s, s.flat, s.boxes, objects);
      var error := CheckPieceBlock(m, s);
      if error.Some? {
        BadPiece(c, s, p.address, m, now, error.value);
        return Fail(error.value);
      }
      PassedPiece(c, s, m);
      if Field(m, 1) in pieceSet {
        StoreApart(objects, s.flat, s.boxes);
        assert p in peers.Values;
        EndBitfieldTime(p, s);
        HeldNow(s, s.flat, s.boxes, objects);
        HeldPieceHandled(c, s, p.address, m, now);
        return Proceed;
      }
      outcome := ReceiveBlock(p, m, now, s, objects);
    }

    /** The messages that do not touch the store. */
    method HandleControl(p: PeerState, m: seq<byte>, now: int, rate: PeerState -> real, ghost s: State)
      returns (outcome: Outcome)
      requires Wired() && Knows(p) && s == Over(s.flat, s.boxes) && Arrives(c, s, p.address, m) && m != []
      requires m[0] != REQUEST && m[0] != PIECE
      requires policy.Valid()
      modifies policy, this`activePieces, activePieces.Values`downloaderCount, peers.Values
      ensures Renewed(old(activePieces))
      ensures Wired() && peers == old(peers)
      ensures Handled(c, s, p.address, m, now, outcome, Over(s.flat, s.boxes))
      ensures policy.Valid() && old(policy.calls) <= policy.calls
    {
      hide Over, Wired, Sound, Matches, Arrives, Handled;
      assert p in peers.Values;
      if m[0] == CHOKE {
        outcome := HandleChoke(p, m, now, s);
      } else if m[0] == UNCHOKE {
        outcome := HandleUnchoke(p, m, now, s);
      } else if m[0] == INTERESTED {
        outcome := HandleInterest(p, m, true, now, rate, s);
      } else if m[0] == NOT_INTERESTED {
        outcome := HandleInterest(p, m, false, now, rate, s);
      } else if m[0] == HAVE {
        outcome := HandleHave(p, m, now, s);
      } else if m[0] == BITFIELD {
        outcome := HandleBitfield(p, m, now, s);
      } else if m[0] == CANCEL {
        outcome := HandleCancel(p, m, now, s);
      } else if m[0] == PORT {
        outcome := HandlePort(p, m, now, s);
      } else if m[0] == EXTENSION {
        outcome := HandleExtension(p, m, now, s);
      } else {
        UnknownHandled(c, s, p.address, m, now);
        outcome := Fail(UnknownMessage);
      }
    }

    /** `rate` gives the download rate of every peer at the time of the message. */
    method GeneralMessage(p: PeerState, m: seq<byte>, now: int, rate: PeerState -> real, ghost s: State)
      returns (outcome: Outcome)
      requires Wired() && Knows(p) && s == State() && StoreReady() && Sound(c, s) && m != []
      requires policy.Valid()
      modifies policy, this`activePieces, this`pieceSet, this`goodPieces, this`left, this`saved
      modifies activePieces.Values`downloaderCount, activePieces.Values`buffer, peers.Values, store.Objects()
      ensures Renewed(old(activePieces))
      ensures Wired() && StoreReady() && store.Objects() == old(store.Objects()) && peers == old(peers)
      ensures Handled(c, s, p.address, m, now, outcome, State())
      ensures policy.Valid() && old(policy.calls) <= policy.calls
    {
      hide Over, Wired, Sound, Matches, Arrives, Handled, StoreReady, StoreIs;
      hide Choker.Run, Choker.ClassicChokePolicy.Valid;
      ghost var objects := store.Objects();
      IsOver(s, s.flat, s.boxes, objects);
      Known(p, s);
      IsArrival(c, s, p.address, m);
      assert p in peers.Values;
      StoreApart(objects, s.flat, s.boxes);
      if m[0] == REQUEST {
        HeldNow(s, s.flat, s.boxes, objects);
        outcome := HandleRequest(p, m, now, s);
      } else if m[0] == PIECE {
        outcome := HandlePiece(p, m, now, s, objects);
        HeldNow(s, store.Contents(), store.Boxes(), objects);
      } else {
        outcome := HandleControl(p, m, now, rate, s);
        HeldNow(s, s.flat, s.boxes, objects);
      }
    }

    // ---- Events of the main loop ----

    lemma CanForgetAll(p: PeerState, s: State)
      requires Sound(c, s) && Knows(p) && s == Over(s.flat, s.boxes)
      ensures CanForget(s, p.ourRequests.Keys) && p.address in s.peers
      ensures s.peers[p.address].ourRequests == p.ourRequests
    {
      assert PeerOk(c, s.pieceSet, s.peers[p.address]);
      assert p.View() == s.peers[p.address];
    }

    method RemovePeer(p: PeerState, ghost s: State)
      requires Wired() && Knows(p) && s == Over(s.flat, s.boxes)
      modifies this`peers
      ensures peers == old(peers) - {p.address} && activePieces == old(activePieces)
      ensures Wired() && Over(s.flat, s.boxes) == s.(peers := s.peers - {p.address})
    {
      peers := peers - {p.address};
      assert PeerViews() == s.peers - {p.address};
    }

    method CloseOwn(p: PeerState, ghost s: State)
      requires Wired() && Knows(p) && s == Over(s.flat, s.boxes) && Sound(c, s)
      modifies this`peers, p`ourRequests, activePieces.Values`downloaderCount
      ensures peers == old(peers) - {p.address} && activePieces == old(activePieces)
      ensures Wired() && Over(s.flat, s.boxes) == SessionState.ClosePeer(s, p.address)
    {
      hide Over, Wired, Sound, CanForget, Forgotten, SessionState.ClosePeer;
      CanForgetAll(p, s);
      ForgottenFrame(s, s.peers[p.address].ourRequests.Keys);
      RemoveRequests(p, s);
      ghost var q := s.peers[p.address];
      RemovePeer(p, WithPeer(Forgotten(s, q.ourRequests.Keys), p.address, q.(ourRequests := map[])));
      CloseUnfolds(s, p.address);
    }

    method ClosePeer(p: PeerState, ghost s: State)
      requires Wired() && Knows(p) && s == State() && StoreReady() && Sound(c, s)
      modifies this`peers, p`ourRequests, activePieces.Values`downloaderCount
      ensures peers == old(peers) - {p.address} && activePieces == old(activePieces)
      ensures Wired() && StoreReady() && store.Objects() == old(store.Objects())
      ensures State() == SessionState.ClosePeer(s, p.address)
    {
      hide Over, Wired, Sound, StoreIs, StoreReady, SessionState.ClosePeer;
      ghost var objects := store.Objects();
      IsOver(s, s.flat, s.boxes, objects);
      StoreApart(objects, s.flat, s.boxes);
      Known(p, s);
      assert p in peers.Values;
      CloseOwn(p, s);
      HeldNow(s, s.flat, s.boxes, objects);
    }

    /** DoMessage and the case of the main loop around it: a connection that has ended (None) or has sent a bad
        message is closed. `crashed` is a run-time panic. */
    method OnMessage(p: PeerState, m: Option<seq<byte>>, now: int, rate: PeerState -> real, ghost s: State)
      returns (crashed: bool)
      requires Wired() && Knows(p) && s == State() && StoreReady() && Sound(c, s)
      requires policy.Valid()
      modifies policy, this
      modifies activePieces.Values`downloaderCount, activePieces.Values`buffer, peers.Values, store.Objects()
      ensures !crashed ==> store.Objects() == old(store.Objects()) && Renewed(old(activePieces))
      ensures !crashed ==> peers == old(peers) || peers == old(peers) - {p.address}
      ensures p.address in s.peers && (crashed <==> m.Some? && m.value != [] && Panics(c, s, p.address, m.value))
      ensures !crashed ==> Sound(c, State())
      ensures !crashed ==> Wired() && StoreReady()
      ensures !crashed ==> SessionRun.Step(c, s, SessionRun.Message(p.address, m, now), State())
      ensures policy.Valid() && old(policy.calls) <= policy.calls
    {
      hide Over, Wired, Sound, StoreIs, StoreReady, Handled, SessionRun.Step, Matches, SessionState.ClosePeer, Panics;
      ghost var a := p.address;
      ghost var objects := store.Objects();
      IsOver(s, s.flat, s.boxes, objects);
      Known(p, s);
      assert p in peers.Values;
      crashed := false;
      if m.None? || m.value == [] {
        EndIsStep(c, s, a, m, now);
        if m.None? {
          ClosePeer(p, s);
        }
        StepSound(c, s, SessionRun.Message(a, m, now), State());
        return;
      }
      var outcome := GeneralMessage(p, m.value, now, rate, s);
      HandledPanics(s, a, m.value, now, outcome);
      if outcome.Crash? {
        return true;
      }
      HandledIsStep(c, s, a, m.value, now, outcome, State());
      if outcome.Fail? {
        HandledFails(s, a, m.value, now, outcome);
        ClosePeer(p, s);
      }
      StepSound(c, s, SessionRun.Message(a, m, now), State());
    }

    lemma HandledPanics(s: State, a: Address, m: seq<byte>, now: int, outcome: Outcome)
      requires Handled(c, s, a, m, now, outcome, State())
      ensures outcome.Crash? <==> Panics(c, s, a, m)
    {
      hide Effect;
    }

    lemma HandledFails(s: State, a: Address, m: seq<byte>, now: int, outcome: Outcome)
      requires Handled(c, s, a, m, now, outcome, State()) && outcome.Fail?
      ensures State() == s
    {
      hide Effect;
    }

    method CheckAndKeepAlive(p: PeerState, now: int, ghost s: State)
      requires Wired() && Knows(p) && s == Over(s.flat, s.boxes) && Sound(c, s)
      modifies peers.Values`sent, activePieces.Values`downloaderCount
      ensures peers == old(peers) && activePieces == old(activePieces)
      ensures Wired() && p.address in s.peers
      ensures Over(s.flat, s.boxes)
           == WithPeer(Forgotten(s, TimedOut(s.peers[p.address], now)), p.address, Send(s.peers[p.address], []))
    {
      hide Over, Wired, Sound, CanForget, Forgotten, OthersMatch, Knows;
      CanForgetAll(p, s);
      KnownValue(p);
      assert p in peers.Values;
      ForgottenFrame(s, TimedOut(s.peers[p.address], now));
      DoCheckRequests(p, now, s);
      ghost var s1 := Forgotten(s, TimedOut(s.peers[p.address], now));
      ghost var others := SetApart(p, s1);
      p.KeepAlive();
      PutBack(p, s1, others);
    }

    method OnKeepAlive(p: PeerState, now: int, ghost s: State)
      requires Wired() && Knows(p) && s == State() && StoreReady() && Sound(c, s)
      modifies peers.Values`sent, activePieces.Values`downloaderCount
      ensures peers == old(peers) && activePieces == old(activePieces) && store.Objects() == old(store.Objects())
      ensures Sound(c, State())
      ensures Wired() && StoreReady() && SessionRun.Step(c, s, SessionRun.KeepAlive(p.address, now), State())
    {
      hide Over, Wired, Sound, StoreIs, StoreReady, Forgotten, SessionRun.Step, Matches, TimedOut;
      ghost var objects := store.Objects();
      IsOver(s, s.flat, s.boxes, objects);
      StoreApart(objects, s.flat, s.boxes);
      Known(p, s);
      assert p in peers.Values;
      CheckAndKeepAlive(p, now, s);
      HeldNow(s, s.flat, s.boxes, objects);
      KeepAliveIsStep(c, s, p.address, now);
      StepSound(c, s, SessionRun.KeepAlive(p.address, now), State());
    }

    /** Nothing was read from the peer for three minutes. */
    method OnExpire(p: PeerState, ghost s: State)
      requires Wired() && Knows(p) && s == State() && StoreReady() && Sound(c, s)
      modifies this`peers, p`ourRequests, activePieces.Values`downloaderCount
      ensures peers == old(peers) - {p.address} && activePieces == old(activePieces)
      ensures store.Objects() == old(store.Objects())
      ensures Sound(c, State())
      ensures Wired() && StoreReady() && SessionRun.Step(c, s, SessionRun.Expire(p.address), State())
    {
      hide Over, Wired, Sound, StoreReady, SessionRun.Step, SessionState.ClosePeer, Matches;
      KnownState(p, s);
      ClosePeer(p, s);
      ExpireIsStep(c, s, p.address);
      StepSound(c, s, SessionRun.Expire(p.address), State());
    }

    lemma KnownState(p: PeerState, s: State)
      requires Knows(p) && s == State()
      ensures p.address in s.peers
    {
    }

    method OnChokeTick(rate: PeerState -> real, ghost s: State)
      requires Wired() && s == State() && StoreReady() && Sound(c, s)
      requires policy.Valid()
      modifies policy, peers.Values`amChoking, peers.Values`sent
      ensures peers == old(peers) && activePieces == old(activePieces) && store.Objects() == old(store.Objects())
      ensures Sound(c, State())
      ensures Wired() && StoreReady() && SessionRun.Step(c, s, SessionRun.ChokeTick, State())
      ensures policy.Valid() && old(policy.calls) <= policy.calls
    {
      hide Over, Wired, Sound, StoreIs, StoreReady, SessionRun.Step, SessionState.ChokePeers;
      ghost var objects := store.Objects();
      IsOver(s, s.flat, s.boxes, objects);
      StoreApart(objects, s.flat, s.boxes);
      var _ := ChokePeers(rate, s);
      HeldNow(s, s.flat, s.boxes, objects);
      TickIsStep(c, s, State());
      StepSound(c, s, SessionRun.ChokeTick, State());
    }

    method KnowsId(id: string) returns (known: bool)
      ensures known <==> exists b :: b in peers && peers[b].id == id
    {
      var todo := peers.Keys;
      while todo != {}
        invariant todo <= peers.Keys && forall b | b in peers && b !in todo :: peers[b].id != id
      {
        var b :| b in todo;
        todo := todo - {b};
        if peers[b].id == id {
          return true;
        }
      }
      return false;
    }

    /** Nothing but a new object was added to the peers. */
    twostate predicate OneNewPeer(before: map<Address, PeerState>, address: Address)
      reads this`peers
    {
      peers == before || (address in peers && fresh(peers[address]) && peers == before[address := peers[address]])
    }

    method PutPeer(ps: PeerState, ghost s: State)
      requires Wired() && s == Over(s.flat, s.boxes) && (ps.address in peers ==> peers[ps.address] != ps)
      modifies this`peers
      ensures activePieces == old(activePieces)
      ensures Wired() && peers == old(peers)[ps.address := ps]
      ensures Over(s.flat, s.boxes) == WithPeer(s, ps.address, ps.View())
    {
      peers := peers[ps.address := ps];
      assert PeerViews() == s.peers[ps.address := ps.View()];
    }

    method GreetedPeer(address: Address, id: string, supportsExtensions: bool, handshake: seq<byte>, ghost s: State)
      returns (ps: PeerState)
      requires pieceSet == s.pieceSet
      ensures fresh(ps) && ps.address == address
      ensures ps.View() == Send(NewPeer(id), Greeting(c, s, supportsExtensions, handshake))
    {
      hide BitfieldMessage;
      ps := new PeerState(address, id);
      if supportsExtensions {
        ps.SendMessage(handshake);
      } else {
        ps.SendBitfield(c, pieceSet);
      }
    }

    /** A new peer, greeted. */
    method NewConnection(address: Address, id: string, supportsExtensions: bool, handshake: seq<byte>, ghost s: State)
      requires Wired() && s == Over(s.flat, s.boxes)
      modifies this`peers
      ensures activePieces == old(activePieces) && OneNewPeer(old(peers), address)
      ensures Wired()
      ensures Over(s.flat, s.boxes)
           == WithPeer(s, address, Send(NewPeer(id), Greeting(c, s, supportsExtensions, handshake)))
    {
      hide Over, Wired, BitfieldMessage, Matches, Greeting;
      Totals(s);
      OwnsFrom(s);
      var ps := GreetedPeer(address, id, supportsExtensions, handshake, s);
      OwnsIsOver(s);
      PutPeer(ps, s);
    }

    lemma IdsMatch(id: string, s: State)
      requires s == Over(s.flat, s.boxes)
      ensures (exists b :: b in peers && peers[b].id == id) <==> exists b :: b in s.peers && s.peers[b].id == id
      ensures |peers| == |s.peers|
    {
      assert forall b | b in peers :: peers[b].View() == s.peers[b];
      assert |peers| == |peers.Keys| && |s.peers| == |s.peers.Keys|;
      if b :| b in s.peers && s.peers[b].id == id {
        assert peers[b].id == id;
      }
    }

    /** Connections to ourselves, to peers we know and to too many peers are turned away. */
    method AddOwn(address: Address, id: string, supportsExtensions: bool, handshake: seq<byte>, ghost s: State)
      requires Wired() && s == Over(s.flat, s.boxes)
      modifies this`peers
      ensures activePieces == old(activePieces) && OneNewPeer(old(peers), address)
      ensures Wired()
      ensures Over(s.flat, s.boxes) == AddPeer(c, s, address, id, Greeting(c, s, supportsExtensions, handshake))
    {
      hide Over, Wired, BitfieldMessage, Greeting;
      IdsMatch(id, s);
      if id == c.ourId {
        return;
      }
      var known := KnowsId(id);
      if known {
        return;
      }
      if |peers| >= MAX_NUM_PEERS {
        return;
      }
      NewConnection(address, id, supportsExtensions, handshake, s);
    }

    /** `handshake` is the extension handshake, for peers that say they support it. */
    method OnConnect(address: Address, id: string, supportsExtensions: bool, handshake: seq<byte>, ghost s: State)
      requires Wired() && s == State() && StoreReady() && Sound(c, s) && |handshake| >= 2 && handshake[0] == EXTENSION
      modifies this`peers
      ensures activePieces == old(activePieces) && OneNewPeer(old(peers), address)
      ensures store.Objects() == old(store.Objects())
      ensures Wired() && StoreReady()
      ensures Sound(c, State())
      ensures var greeting := Greeting(c, s, supportsExtensions, handshake);
              SessionRun.Step(c, s, SessionRun.Connect(address, id, greeting), State())
    {
      hide Over, Wired, Sound, StoreIs, StoreReady, SessionRun.Step, AddPeer, Greeting;
      ghost var objects := store.Objects();
      IsOver(s, s.flat, s.boxes, objects);
      StoreApart(objects, s.flat, s.boxes);
      AddOwn(address, id, supportsExtensions, handshake, s);
      HeldNow(s, s.flat, s.boxes, objects);
      ConnectIsStep(c, s, address, id, supportsExtensions, handshake);
      StepSound(c, s, SessionRun.Connect(address, id, Greeting(c, s, supportsExtensions, handshake)), State());
    }

    // ---- The main loop ----

    twostate predicate PeersRenewed(before: map<Address, PeerState>)
      reads this`peers
    {
      forall a | a in peers :: fresh(peers[a]) || peers[a] in before.Values
    }

    /** One turn of the main loop: the input is one event, is dropped, or makes the program panic. */
    method HandleInput(input: Input, rate: PeerState -> real, ghost s: State) returns (crashed: bool)
      requires Wired() && s == State() && StoreReady() && Sound(c, s) && input.Ok()
      requires policy.Valid()
      modifies this, policy, peers.Values, activePieces.Values, store.Objects()
      ensures crashed <==> Kills(c, s, input)
      ensures !crashed ==> store.Objects() == old(store.Objects())
      ensures !crashed ==> PeersRenewed(old(peers)) && Renewed(old(activePieces))
      ensures !crashed ==> Wired() && StoreReady() && Handles(c, s, input, State())
      ensures policy.Valid() && old(policy.calls) <= policy.calls
    {
      hide Over, Wired, Sound, StoreReady, StoreIs, SessionRun.Step, Knows, State, Greeting, Panics;
      crashed := false;
      SamePeers(s);
      OnlyMessagesKill(c, s, input);
      match input {
        case Tick =>
          OnChokeTick(rate, s);
        case Connection(address, id, supportsExtensions, handshake) =>
          OnConnect(address, id, supportsExtensions, handshake, s);
        case Received(address, message, now) =>
          if address in peers {
            KnownAt(address);
            crashed := OnMessage(peers[address], message, now, rate, s);
          }
        case KeepAliveDue(address, now) =>
          if address in peers {
            KnownAt(address);
            OnKeepAlive(peers[address], now, s);
          }
        case Silent(address) =>
          if address in peers {
            KnownAt(address);
            OnExpire(peers[address], s);
          }
      }
    }

    lemma SamePeers(s: State)
      requires s == State()
      ensures s.peers.Keys == peers.Keys
    {
    }

    /** The main loop. `last` is the state after the inputs that were handled; an input that is not handled made the
        program panic in that state. */
    method DoTorrent(inputs: seq<Input>, rates: seq<PeerState -> real>, ghost start: State)
      returns (crashed: bool, ghost handled: nat, ghost events: seq<SessionRun.Event>, ghost last: State)
      requires Wired() && start == State() && StoreReady() && Sound(c, start)
      requires |rates| == |inputs| && forall i | 0 <= i < |inputs| :: inputs[i].Ok()
      requires policy.Valid()
      modifies this, policy, peers.Values, activePieces.Values, store.Objects()
      ensures handled <= |inputs| && Processes(c, start, inputs[..handled], events, last)
      ensures crashed <==> handled < |inputs|
      ensures crashed ==> Kills(c, last, inputs[handled])
      ensures !crashed ==> Wired() && StoreReady() && last == State()
      ensures Truthful(c, start) ==> Truthful(c, last)
      ensures policy.Valid() && old(policy.calls) <= policy.calls
    {
      hide Over, Wired, Sound, StoreReady, StoreIs, Knows, Truthful, State, Handles, Kills, Processes, Leads;
      NoInputs(c, start);
      handled, events, last := 0, [], start;
      for i := 0 to |inputs|
        invariant handled == i && Processes(c, start, inputs[..i], events, last)
        invariant store.Objects() == old(store.Objects()) && PeersRenewed(old(peers)) && Renewed(old(activePieces))
        invariant policy.Valid() && old(policy.calls) <= policy.calls
        invariant Wired() && StoreReady() && last == State()
      {
        ProcessesLeads(c, start, inputs[..i], events, last);
        LeadsSound(c, start, events, last);
        crashed := HandleInput(inputs[i], rates[i], last);
        if crashed {
          return;
        }
        OneMoreInput(c, start, inputs[..i], events, last, inputs[i], State());
        assert inputs[..i] + [inputs[i]] == inputs[..i + 1];
        handled, events, last := i + 1, events + Events(c, last, inputs[i]), State();
      }
      crashed := false;
      ProcessesLeads(c, start, inputs[..handled], events, last);
    }
  }
}
