/** What the arrival of a block does, told by the messages that follow it: who gets a CANCEL, who gets a HAVE, and who
    is cut off. */
module SessionDeliveries {
  import opened Arith
  import opened Bytes
  import opened Geometry
  import opened SessionState
  import opened SessionInvariant
  import opened SessionRun
  import opened SessionReplies
  import opened SessionWire
  import Bitsets
  import SessionCounts
  import SessionSteps
  import SessionTheorems

  // ---- One peer ----

  /** The request for the block is dropped, at every other peer with a CANCEL if more than one was asked; a peer that
      lacks a stored piece gets a HAVE; nothing else is sent. */
  ghost predicate Hears(c: Config, p: Peer, q: Peer, sender: bool, shared: bool, piece: nat, begin: nat, stored: bool,
                        bad: bool)
  {
    var key := Pack(piece, begin);
    var cancelled := !sender && shared && key in p.ourRequests;
    var told := stored && piece !in p.have;
    && q == p.(ourRequests := if sender || cancelled then p.ourRequests - {key} else p.ourRequests,
               closed := p.closed || (sender && bad), sent := q.sent)
    && |q.sent| == |p.sent| + (if cancelled then 1 else 0) + (if told then 1 else 0) && p.sent <= q.sent
    && (cancelled ==> IsBlock(q.sent[|p.sent|], CANCEL, piece, begin, BlockSize(c, piece, begin)))
    && (told ==> IsHave(q.sent[|q.sent| - 1], piece))
  }

  /** A request that is remembered starts with its block. */
  lemma KeyBegins(c: Config, p: Peer, piece: nat, begin: nat)
    requires c.Valid() && (forall key | key in p.ourRequests :: KeyOk(c, key)) && begin < TWO_TO_THE_32
    requires Pack(piece, begin) in p.ourRequests
    ensures begin / STANDARD_BLOCK_LENGTH * STANDARD_BLOCK_LENGTH == begin
    ensures piece < c.t.totalPieces && begin / STANDARD_BLOCK_LENGTH < c.t.BlockCount(piece)
  {
    hide Pack, PieceOf, BeginOf, KeyOk, Torrent.BlockCount, Config.Valid;
    SessionSteps.KeyUnpacks(c, Pack(piece, begin));
    Unpack(piece, begin);
    SessionSteps.BlockBegins(c, piece, begin / STANDARD_BLOCK_LENGTH);
    Unpack(piece, begin / STANDARD_BLOCK_LENGTH * STANDARD_BLOCK_LENGTH);
  }

  lemma AnswerHeard(c: Config, p: Peer, sender: bool, piece: nat, begin: nat, asked: int)
    requires c.Valid() && (forall key | key in p.ourRequests :: KeyOk(c, key)) && begin < TWO_TO_THE_32
    ensures Hears(c, p, Answer(c, p, sender, piece, begin, asked), sender, asked > 1, piece, begin, false, false)
  {
    hide Pack, Cancelled, KeyOk, IsBlock, BlockSize, IsHave, Config.Valid;
    if !sender && asked > 1 && Pack(piece, begin) in p.ourRequests {
      CancelHeard(c, p, piece, begin);
    }
  }

  lemma CancelHeard(c: Config, p: Peer, piece: nat, begin: nat)
    requires c.Valid() && (forall key | key in p.ourRequests :: KeyOk(c, key)) && begin < TWO_TO_THE_32
    requires Pack(piece, begin) in p.ourRequests
    ensures var q := Cancelled(c, p, piece, begin / STANDARD_BLOCK_LENGTH);
            && q == p.(ourRequests := p.ourRequests - {Pack(piece, begin)}, sent := q.sent)
            && SendsBlock(c, p.sent, q.sent, CANCEL, piece, begin)
  {
    hide Pack, RequestMessage, KeyOk, IsBlock, BlockSize, Torrent.BlockCount, Config.Valid;
    KeyBegins(c, p, piece, begin);
    BlockWired(c, CANCEL, piece, begin / STANDARD_BLOCK_LENGTH);
  }

  lemma AnnounceHeard(c: Config, p: Peer, q: Peer, sender: bool, shared: bool, piece: nat, begin: nat)
    requires Hears(c, p, q, sender, shared, piece, begin, false, false) && piece < TWO_TO_THE_32
    ensures Hears(c, p, Announce(q, piece), sender, shared, piece, begin, true, false)
  {
    hide Pack, HaveMessage, IsBlock, BlockSize, IsHave;
    HaveWired(piece);
  }

  // ---- All peers ----

  ghost predicate AllHear(c: Config, s: State, a: Address, s1: State, piece: nat, begin: nat, stored: bool, bad: bool)
    requires piece in s.active && begin / STANDARD_BLOCK_LENGTH < |s.active[piece].counts|
  {
    && s1.peers.Keys == s.peers.Keys
    && forall b | b in s.peers ::
         Hears(c, s.peers[b], s1.peers[b], b == a, s.active[piece].counts[begin / STANDARD_BLOCK_LENGTH] > 1,
               piece, begin, stored, bad)
  }

  lemma MarkedHeard(c: Config, s: State, a: Address, piece: nat, begin: nat)
    requires c.Valid() && Inv(c, s) && a in s.peers && piece in s.active && begin < TWO_TO_THE_32
    requires begin / STANDARD_BLOCK_LENGTH < |s.active[piece].counts|
    ensures AllHear(c, s, a, Marked(c, s, a, piece, begin), piece, begin, false, false)
  {
    hide Answer, Hears, KeyOk;
    var asked := s.active[piece].counts[begin / STANDARD_BLOCK_LENGTH];
    forall b | b in s.peers
      ensures Hears(c, s.peers[b], Answer(c, s.peers[b], b == a, piece, begin, asked), b == a, asked > 1, piece, begin,
                    false, false)
    {
      KnownPeerOk(c, s, b);
      AnswerHeard(c, s.peers[b], b == a, piece, begin, asked);
    }
  }

  lemma StoredHeard(c: Config, s: State, a: Address, m: State, piece: nat, begin: nat, s1: State)
    requires piece in s.active && begin / STANDARD_BLOCK_LENGTH < |s.active[piece].counts| && piece < TWO_TO_THE_32
    requires AllHear(c, s, a, m, piece, begin, false, false) && s1.peers == Announced(m.peers, piece)
    ensures AllHear(c, s, a, s1, piece, begin, true, false)
  {
    hide Hears, Announce;
    forall b | b in s.peers
      ensures Hears(c, s.peers[b], Announce(m.peers[b], piece), b == a,
                    s.active[piece].counts[begin / STANDARD_BLOCK_LENGTH] > 1, piece, begin, true, false)
    {
      AnnounceHeard(c, s.peers[b], m.peers[b], b == a,
                    s.active[piece].counts[begin / STANDARD_BLOCK_LENGTH] > 1, piece, begin);
    }
  }

  lemma RefusedHeard(c: Config, s: State, a: Address, m: State, piece: nat, begin: nat)
    requires piece in s.active && begin / STANDARD_BLOCK_LENGTH < |s.active[piece].counts| && a in s.peers
    requires AllHear(c, s, a, m, piece, begin, false, false)
    ensures a in m.peers && AllHear(c, s, a, Refused(m, a, piece), piece, begin, false, true)
  {
    hide IsBlock, BlockSize, IsHave, Pack;
    assert Hears(c, s.peers[a], m.peers[a], true, s.active[piece].counts[begin / STANDARD_BLOCK_LENGTH] > 1, piece,
                 begin, false, false);
    forall b | b in s.peers && b != a
      ensures Hears(c, s.peers[b], m.peers[b], false, s.active[piece].counts[begin / STANDARD_BLOCK_LENGTH] > 1, piece,
                    begin, false, true)
    {
      assert Hears(c, s.peers[b], m.peers[b], false, s.active[piece].counts[begin / STANDARD_BLOCK_LENGTH] > 1, piece,
                   begin, false, false);
    }
  }

  // ---- The block ----

  /** The bytes are written over those at this place, as far as they fit. */
  ghost predicate Overwritten(before: seq<byte>, after: seq<byte>, begin: nat, data: seq<byte>) {
    && |after| == |before|
    && forall i | 0 <= i < |before| :: after[i] == if begin <= i < begin + |data| then data[i - begin] else before[i]
  }

  lemma FilledOver(v: Active, begin: nat, data: seq<byte>)
    requires begin <= |v.buffer|
    ensures Overwritten(v.buffer, Filled(v, begin, data).buffer, begin, data)
  {
    var n := Min(|data|, |v.buffer| - begin);
    var r := Filled(v, begin, data).buffer;
    forall i | 0 <= i < |v.buffer|
      ensures r[i] == if begin <= i < begin + |data| then data[i - begin] else v.buffer[i]
    {
      if begin <= i < begin + |data| {
        assert r[i] == data[..n][i - begin];
      }
    }
  }

  ghost predicate OnlyMissing(counts: seq<int>, block: nat) {
    forall b | 0 <= b < |counts| && b != block :: counts[b] == -1
  }

  /** The block is here; if it was the last one, its piece is stored if the hash is right, and else thrown away. */
  ghost predicate Takes(c: Config, s: State, a: Address, piece: nat, begin: nat, data: seq<byte>, s1: State)
    requires c.Valid() && |s.flat| == c.t.totalSize && s.pieceSet <= c.t.AllPieces() && piece in s.active
    requires begin / STANDARD_BLOCK_LENGTH < |s.active[piece].counts| && piece < c.t.totalPieces
  {
    var v, block := s.active[piece], begin / STANDARD_BLOCK_LENGTH;
    exists buffer ::
      && Overwritten(v.buffer, buffer, begin, data)
      && if !OnlyMissing(v.counts, block) then
           && AllHear(c, s, a, s1, piece, begin, false, false)
           && s1 == s.(peers := s1.peers, active := s.active[piece := Active(v.counts[block := -1], buffer)])
         else if !c.t.Good(buffer, piece) then
           && AllHear(c, s, a, s1, piece, begin, false, true)
           && s1 == s.(peers := s1.peers, active := s.active - {piece})
         else
           && AllHear(c, s, a, s1, piece, begin, true, false)
           && s1.active == s.active - {piece} && s1.pieceSet == s.pieceSet + {piece}
           && |s1.flat| == |s.flat| && c.t.Slice(s1.flat, piece) == buffer
           && forall i | i in c.t.AllPieces() && i != piece :: c.t.Slice(s1.flat, i) == c.t.Slice(s.flat, i)
  }

  lemma RecordLaw(c: Config, s: State, a: Address, piece: nat, begin: nat, data: seq<byte>, s1: State)
    requires c.Valid() && Inv(c, s) && |s.flat| == c.t.totalSize && s.pieceSet <= c.t.AllPieces()
    requires a in s.peers && piece in s.active && ActiveOk(c, s.pieceSet, piece, s.active[piece])
    requires begin <= |s.active[piece].buffer| && begin / STANDARD_BLOCK_LENGTH < |s.active[piece].counts|
    requires RecordBlock(c, Copied(s, piece, begin, data), a, piece, begin, s1)
    ensures Takes(c, s, a, piece, begin, data, s1)
  {
    hide Inv, Hears, Answered, Filled, Torrent.Good, KeyOk;
    c.t.PieceBounds(piece);
    var v, block := s.active[piece], begin / STANDARD_BLOCK_LENGTH;
    FilledOver(v, begin, data);
    var w := Filled(v, begin, data);
    assert w.counts == v.counts && |w.buffer| == |v.buffer| by {
      FilledFields(v, begin, data);
    }
    var s0 := Copied(s, piece, begin, data);
    CopiedKeeps(c, s, piece, begin, data);
    MarkedHeard(c, s0, a, piece, begin);
    var m := Marked(c, s0, a, piece, begin);
    SameHear(c, s, s0, a, m, piece, begin);
    RemoveUpdated(s.active, piece, w);
    RemoveUpdated(s0.active, piece, HereNow(w, block));
    LastOne(v.counts, block);
    if !OnlyMissing(v.counts, block) {
      assert s0.active[piece := HereNow(w, block)] == s.active[piece := Active(v.counts[block := -1], w.buffer)];
    } else if c.t.Good(w.buffer, piece) {
      StoredHeard(c, s, a, m, piece, begin, s1);
      OneSlice(c, s.flat, piece, w.buffer);
    } else {
      RefusedHeard(c, s, a, m, piece, begin);
    }
  }

  lemma FilledFields(v: Active, begin: nat, data: seq<byte>)
    requires begin <= |v.buffer|
    ensures Filled(v, begin, data).counts == v.counts && |Filled(v, begin, data).buffer| == |v.buffer|
  {
  }

  lemma SameHear(c: Config, s: State, s0: State, a: Address, m: State, piece: nat, begin: nat)
    requires piece in s.active && piece in s0.active && s0.active[piece].counts == s.active[piece].counts
    requires begin / STANDARD_BLOCK_LENGTH < |s.active[piece].counts| && s0.peers == s.peers
    requires AllHear(c, s0, a, m, piece, begin, false, false)
    ensures AllHear(c, s, a, m, piece, begin, false, false)
  {
    hide Hears;
  }

  lemma LastOne(counts: seq<int>, block: nat)
    requires block < |counts|
    ensures Complete(counts[block := -1]) <==> OnlyMissing(counts, block)
  {
    if Complete(counts[block := -1]) {
      forall b | 0 <= b < |counts| && b != block
        ensures counts[b] == -1
      {
        assert counts[block := -1][b] == -1;
      }
    }
  }

  lemma OneSlice(c: Config, flat: seq<byte>, piece: nat, content: seq<byte>)
    requires c.Valid() && |flat| == c.t.totalSize && piece < c.t.totalPieces && |content| == c.t.PieceLength(piece)
    ensures c.t.Start(piece) + |content| <= |flat|
    ensures var after := Splice(flat, c.t.Start(piece), content);
            && |after| == |flat| && c.t.Slice(after, piece) == content
            && forall i | i in c.t.AllPieces() && i != piece :: c.t.Slice(after, i) == c.t.Slice(flat, i)
  {
    c.t.PieceBounds(piece);
    forall i | i in c.t.AllPieces()
      ensures c.t.Slice(Splice(flat, c.t.Start(piece), content), i)
           == if i == piece then content else c.t.Slice(flat, i)
    {
      c.t.SliceAfterWrite(flat, piece, content, i);
    }
  }

  /** An accepted block of a piece that we lack is taken, and followed by one more request. */
  lemma BlockHeard(c: Config, s: State, a: Address, m: seq<byte>, now: int, s': State)
    requires Gets(c, s, a, m, now, s') && Proper(c, s, s.peers[a], m) && m[0] == PIECE
    requires |m| >= 9 && Field(m, 1) !in s.pieceSet
    ensures c.Valid() && |s.flat| == c.t.totalSize && s.pieceSet <= c.t.AllPieces()
    ensures SessionTheorems.Fits(c, s, m, Field(m, 1))
    ensures exists s1, s2 ::
              && Takes(c, s, a, Field(m, 1), Field(m, 5), m[9..], s1)
              && RequestsNext(c, s1, a, now, s2) && a in s2.peers
              && s' == s2.(peers := s2.peers[a := s2.peers[a].(canReceiveBitfield := false)])
  {
    hide Gets, Proper, CheckMessage, Crashes, RecordBlock, RequestBlock, RequestsNext, Takes, Inv, Field;
    Given(c, s, a, m, now, s');
    Accepted(c, s, a, m, now, s');
    ReceiveEffect(c, s, a, m, now, s');
    var piece, begin := Field(m, 1), Field(m, 5);
    var s0 := Copied(s, piece, begin, m[9..]);
    var s1, s2 :| RecordBlock(c, s0, a, piece, begin, s1) && a in s1.peers
                  && RequestBlock(c, s1, a, now, s2) && a in s2.peers && s' == Late(s2, a);
    CopiedKeeps(c, s, piece, begin, m[9..]);
    RecordBlockKeeps(c, s0, a, piece, begin, s1);
    RecordLaw(c, s, a, piece, begin, m[9..], s1);
    RequestLaw(c, s1, a, now, s2);
  }

  // ---- Who is told of a new piece ----

  /** How many of the messages are a HAVE for the piece. */
  ghost function Haves(messages: seq<seq<byte>>, piece: nat): nat {
    if messages == [] then 0
    else
      var n := |messages| - 1;
      Haves(messages[..n], piece) + if IsHave(messages[n], piece) then 1 else 0
  }

  /** The second history goes on from the first, with so many announcements of the piece. */
  ghost predicate Announces(before: seq<seq<byte>>, after: seq<seq<byte>>, piece: nat, n: nat) {
    before <= after && Haves(after[|before|..], piece) == n
  }

  lemma AnnouncesNone(before: seq<seq<byte>>, piece: nat)
    ensures Announces(before, before, piece, 0)
  {
  }

  lemma AnnouncesOne(before: seq<seq<byte>>, after: seq<seq<byte>>, piece: nat, n: nat, m: seq<byte>)
    requires Announces(before, after, piece, n)
    ensures Announces(before, after + [m], piece, n + if IsHave(m, piece) then 1 else 0)
  {
    hide Haves;
    assert (after + [m])[|before|..] == after[|before|..] + [m];
    HavesAppend(after[|before|..], m, piece);
  }

  lemma HavesAppend(messages: seq<seq<byte>>, m: seq<byte>, piece: nat)
    ensures Haves(messages + [m], piece) == Haves(messages, piece) + if IsHave(m, piece) then 1 else 0
  {
    hide IsHave;
    var all := messages + [m];
    assert all[..|messages|] == messages && all[|messages|] == m;
  }

  lemma HearsAnnounces(c: Config, p: Peer, q: Peer, sender: bool, shared: bool, piece: nat, begin: nat, stored: bool,
                       bad: bool, k: nat)
    requires Hears(c, p, q, sender, shared, piece, begin, stored, bad)
    ensures Announces(p.sent, q.sent, k, if stored && k == piece && k !in p.have then 1 else 0)
  {
    hide BlockSize, Pack, Announces;
    var cancelled := !sender && shared && Pack(piece, begin) in p.ourRequests;
    var told := stored && piece !in p.have;
    AnnouncesNone(p.sent, k);
    if cancelled && told {
      assert q.sent == p.sent + [q.sent[|p.sent|]] + [q.sent[|p.sent| + 1]];
      AnnouncesOne(p.sent, p.sent, k, 0, q.sent[|p.sent|]);
      AnnouncesOne(p.sent, p.sent + [q.sent[|p.sent|]], k, 0, q.sent[|p.sent| + 1]);
    } else if cancelled || told {
      assert q.sent == p.sent + [q.sent[|p.sent|]];
      AnnouncesOne(p.sent, p.sent, k, 0, q.sent[|p.sent|]);
    } else {
      assert q.sent == p.sent;
    }
  }

  /** A request announces nothing. */
  lemma RequestAnnounces(c: Config, s: State, a: Address, now: int, s': State, before: seq<seq<byte>>, k: nat, n: nat)
    requires RequestsNext(c, s, a, now, s') && a in s.peers && Announces(before, s.peers[a].sent, k, n)
    ensures a in s'.peers && Announces(before, s'.peers[a].sent, k, n)
    ensures forall b | b in s.peers && b != a :: b in s'.peers && s'.peers[b] == s.peers[b]
    ensures s'.pieceSet == s.pieceSet
  {
    hide Announces, RequestsNext;
    NextTouches(c, s, a, now, s');
    var p, q := s.peers[a].sent, s'.peers[a].sent;
    if q != p {
      assert q == p + [q[|p|]];
      AnnouncesOne(before, p, k, n, q[|p|]);
    }
  }

  lemma TakesAnnounces(c: Config, s: State, a: Address, piece: nat, begin: nat, data: seq<byte>, s1: State, b: Address,
                       k: nat)
    requires c.Valid() && |s.flat| == c.t.totalSize && s.pieceSet <= c.t.AllPieces() && piece in s.active
    requires begin / STANDARD_BLOCK_LENGTH < |s.active[piece].counts| && piece < c.t.totalPieces && b in s.peers
    requires Takes(c, s, a, piece, begin, data, s1) && k in s1.pieceSet && k !in s.pieceSet
    ensures b in s1.peers && Announces(s.peers[b].sent, s1.peers[b].sent, k, if k in s.peers[b].have then 0 else 1)
  {
    hide Announces, Hears, Overwritten, Torrent.Good, Torrent.Slice, OnlyMissing;
    assert k == piece && AllHear(c, s, a, s1, piece, begin, true, false);
    HearsAnnounces(c, s.peers[b], s1.peers[b], b == a, s.active[piece].counts[begin / STANDARD_BLOCK_LENGTH] > 1,
                   piece, begin, true, false, k);
  }

  lemma OnlyBlocksAdd(c: Config, s: State, e: Event, s': State)
    requires c.Valid() && Inv(c, s) && Step(c, s, e, s') && s'.pieceSet != s.pieceSet
    ensures e.Message? && e.message.Some? && Gets(c, s, e.address, e.message.value, e.now, s')
    ensures var m := e.message.value;
            Proper(c, s, s.peers[e.address], m) && m[0] == PIECE && |m| >= 9 && Field(m, 1) !in s.pieceSet
  {
    hide Inv, CheckMessage, Crashes, Effect, Field, Proper;
    if e.Message? && e.message.Some? && e.message.value != [] {
      var m := e.message.value;
      HeldPieces(c, s);
      ProperChecked(c, s, s.peers[e.address], m);
      if CheckMessage(c, s, s.peers[e.address], m) == None && !Receives(s, m) {
        EffectFrame(c, s, e.address, m, e.now, s');
      }
    }
  }

  /** Whatever event brings a new piece: each connected peer that lacks it is sent exactly one HAVE that names it, and
      no other peer is sent one. */
  lemma NewPieceIsTold(c: Config, s: State, e: Event, s': State, k: nat, b: Address)
    requires c.Valid() && Inv(c, s) && Step(c, s, e, s') && k in s'.pieceSet && k !in s.pieceSet && b in s.peers
    ensures b in s'.peers && Announces(s.peers[b].sent, s'.peers[b].sent, k, if k in s.peers[b].have then 0 else 1)
  {
    hide Inv, Step, Gets, Proper, Takes, RequestsNext, Announces, Field, SessionTheorems.Fits;
    OnlyBlocksAdd(c, s, e, s');
    var a, m := e.address, e.message.value;
    Given(c, s, a, m, e.now, s');
    BlockHeard(c, s, a, m, e.now, s');
    FitsShape(c, s, m);
    var s1, s2 :| Takes(c, s, a, Field(m, 1), Field(m, 5), m[9..], s1) && RequestsNext(c, s1, a, e.now, s2)
                  && a in s2.peers && s' == s2.(peers := s2.peers[a := s2.peers[a].(canReceiveBitfield := false)]);
    NextKnows(c, s1, a, e.now, s2);
    TakesAnnounces(c, s, a, Field(m, 1), Field(m, 5), m[9..], s1, b, k);
    TakesAnnounces(c, s, a, Field(m, 1), Field(m, 5), m[9..], s1, a, k);
    RequestAnnounces(c, s1, a, e.now, s2, s.peers[a].sent, k, if k in s.peers[a].have then 0 else 1);
  }

  lemma FitsShape(c: Config, s: State, m: seq<byte>)
    requires |m| >= 9 && SessionTheorems.Fits(c, s, m, Field(m, 1))
    ensures Field(m, 1) in s.active && Field(m, 1) < c.t.totalPieces
    ensures Field(m, 5) / STANDARD_BLOCK_LENGTH < |s.active[Field(m, 1)].counts|
  {
  }

  lemma NextKnows(c: Config, s: State, a: Address, now: int, s': State)
    requires RequestsNext(c, s, a, now, s')
    ensures a in s.peers && a in s'.peers && s'.pieceSet == s.pieceSet
  {
    hide RequestsNext, OneOrNone;
    NextTouches(c, s, a, now, s');
  }

  // ---- Who is cancelled ----

  /** A block comes that its sender was asked for, and the counts agree with the requests: every other peer that was
      asked for it is sent a CANCEL for exactly this block, and nobody is waited for any more. */
  lemma OthersAreCancelled(c: Config, s: State, a: Address, m: seq<byte>, now: int, s': State, k: nat, b: nat)
    requires Gets(c, s, a, m, now, s') && Proper(c, s, s.peers[a], m) && m[0] == PIECE && |m| >= 9
    requires Field(m, 1) == k && k !in s.pieceSet && Field(m, 5) == b * STANDARD_BLOCK_LENGTH
    requires k in s.active && b < |s.active[k].counts| && s.active[k].counts[b] >= 0
    requires SessionCounts.Agrees(s) && Pack(k, b * STANDARD_BLOCK_LENGTH) in s.peers[a].ourRequests
    ensures forall other | other in s.peers && other != a ::
              && other in s'.peers && Pack(k, b * STANDARD_BLOCK_LENGTH) !in s'.peers[other].ourRequests
              && (Pack(k, b * STANDARD_BLOCK_LENGTH) in s.peers[other].ourRequests ==>
                   s.peers[other].sent < s'.peers[other].sent
                   && IsBlock(s'.peers[other].sent[|s.peers[other].sent|], CANCEL, k, b * STANDARD_BLOCK_LENGTH,
                              BlockSize(c, k, b * STANDARD_BLOCK_LENGTH)))
  {
    hide Inv, Gets, Proper, Takes, RequestsNext, Announces, Field, Pack, SessionTheorems.Fits, IsBlock, BlockSize;
    hide SessionCounts.Agrees;
    Given(c, s, a, m, now, s');
    BlockHeard(c, s, a, m, now, s');
    var begin := b * STANDARD_BLOCK_LENGTH;
    FitsShape(c, s, m);
    var s1, s2 :| Takes(c, s, a, k, begin, m[9..], s1) && RequestsNext(c, s1, a, now, s2)
                  && a in s2.peers && s' == s2.(peers := s2.peers[a := s2.peers[a].(canReceiveBitfield := false)]);
    NextKnows(c, s1, a, now, s2);
    AnnouncesNone(s1.peers[a].sent, k);
    RequestAnnounces(c, s1, a, now, s2, s1.peers[a].sent, k, 0);
    forall other | other in s.peers && other != a
      ensures other in s1.peers && Dropped(c, s.peers[other], s1.peers[other], k, begin)
    {
      TakesDrops(c, s, a, k, b, m[9..], s1, other);
    }
  }

  ghost predicate Dropped(c: Config, p: Peer, q: Peer, k: nat, begin: nat) {
    && Pack(k, begin) !in q.ourRequests
    && (Pack(k, begin) in p.ourRequests ==>
         p.sent < q.sent && IsBlock(q.sent[|p.sent|], CANCEL, k, begin, BlockSize(c, k, begin)))
  }

  lemma TakesDrops(c: Config, s: State, a: Address, k: nat, b: nat, data: seq<byte>, s1: State, other: Address)
    requires c.Valid() && |s.flat| == c.t.totalSize && s.pieceSet <= c.t.AllPieces() && k in s.active
    requires b < |s.active[k].counts| && k < c.t.totalPieces && a in s.peers && other in s.peers && other != a
    requires b * STANDARD_BLOCK_LENGTH / STANDARD_BLOCK_LENGTH == b && s.active[k].counts[b] >= 0
    requires Takes(c, s, a, k, b * STANDARD_BLOCK_LENGTH, data, s1)
    requires SessionCounts.Agrees(s) && Pack(k, b * STANDARD_BLOCK_LENGTH) in s.peers[a].ourRequests
    ensures other in s1.peers && Dropped(c, s.peers[other], s1.peers[other], k, b * STANDARD_BLOCK_LENGTH)
  {
    hide Takes, IsBlock, IsHave, BlockSize, Pack, SessionCounts.Agrees;
    var begin := b * STANDARD_BLOCK_LENGTH;
    if Pack(k, begin) in s.peers[other].ourRequests {
      SharedCount(s, a, other, k, b);
    }
    var _, _ := OneHears(c, s, a, k, begin, data, s1, other);
  }

  lemma OneHears(c: Config, s: State, a: Address, k: nat, begin: nat, data: seq<byte>, s1: State, other: Address)
    returns (stored: bool, bad: bool)
    requires c.Valid() && |s.flat| == c.t.totalSize && s.pieceSet <= c.t.AllPieces() && k in s.active
    requires begin / STANDARD_BLOCK_LENGTH < |s.active[k].counts| && k < c.t.totalPieces
    requires Takes(c, s, a, k, begin, data, s1) && other in s.peers && other != a
    ensures other in s1.peers
    ensures Hears(c, s.peers[other], s1.peers[other], false, s.active[k].counts[begin / STANDARD_BLOCK_LENGTH] > 1,
                  k, begin, stored, bad)
  {
    hide Overwritten, Torrent.Good, Torrent.Slice, OnlyMissing, Hears;
    var buffer :| Overwritten(s.active[k].buffer, buffer, begin, data)
                  && if !OnlyMissing(s.active[k].counts, begin / STANDARD_BLOCK_LENGTH) then
                       AllHear(c, s, a, s1, k, begin, false, false)
                     else if !c.t.Good(buffer, k) then AllHear(c, s, a, s1, k, begin, false, true)
                     else AllHear(c, s, a, s1, k, begin, true, false);
    bad := OnlyMissing(s.active[k].counts, begin / STANDARD_BLOCK_LENGTH) && !c.t.Good(buffer, k);
    stored := OnlyMissing(s.active[k].counts, begin / STANDARD_BLOCK_LENGTH) && c.t.Good(buffer, k);
  }

  lemma SharedCount(s: State, a: Address, other: Address, k: nat, b: nat)
    requires SessionCounts.Agrees(s) && k in s.active && b < |s.active[k].counts| && s.active[k].counts[b] >= 0
    requires a in s.peers && other in s.peers && other != a
    requires Pack(k, b * STANDARD_BLOCK_LENGTH) in s.peers[a].ourRequests
    requires Pack(k, b * STANDARD_BLOCK_LENGTH) in s.peers[other].ourRequests
    ensures s.active[k].counts[b] > 1
  {
    hide Pack;
    assert SessionCounts.AgreesAt(s.peers, k, s.active[k].counts, b);
    SubsetSize({a, other}, SessionCounts.Holders(s.peers, SessionCounts.KeyOf(k, b)));
  }

  // ---- What panics ----

  /** The block starts after the last byte of its piece, or right there if no block begins. */
  ghost predicate OutsidePiece(c: Config, piece: nat, begin: nat) {
    var length := c.t.PieceLength(piece);
    begin > length || (begin == length && length % 16384 == 0)
  }

  /** A proper message panics exactly in these cases: a block outside a piece that we are downloading, the last block of
      a piece without a hash, a cached read past the end of a piece for a peer that is not choked, and an extension
      message without a payload. */
  ghost predicate Deadly(c: Config, s: State, p: Peer, m: seq<byte>)
    requires m != []
  {
    || m == [EXTENSION]
    || (&& m[0] == REQUEST && |m| == 13 && c.cached && !p.amChoking
        && Field(m, 9) > 0 && Field(m, 5) + Field(m, 9) > c.t.PieceLength(Field(m, 1)))
    || (&& m[0] == PIECE && |m| >= 9 && Field(m, 1) !in s.pieceSet && Field(m, 1) in s.active
        && (|| OutsidePiece(c, Field(m, 1), Field(m, 5))
            || (&& OnlyMissing(s.active[Field(m, 1)].counts, Field(m, 5) / STANDARD_BLOCK_LENGTH)
                && !c.t.HasHash(Field(m, 1)))))
  }

  lemma PanicsExactly(c: Config, s: State, a: Address, m: seq<byte>)
    requires c.Valid() && Inv(c, s) && a in s.peers && m != []
    ensures SessionSteps.Panics(c, s, a, m) <==> Proper(c, s, s.peers[a], m) && Deadly(c, s, s.peers[a], m)
  {
    hide Inv, CheckMessage, Proper, Field, OnlyMissing, Torrent.HasHash, Bitsets.Decode;
    HeldPieces(c, s);
    ProperChecked(c, s, s.peers[a], m);
    if m[0] == PIECE && Proper(c, s, s.peers[a], m) {
      ProperBlock(c, s, s.peers[a], m);
      if Field(m, 1) !in s.pieceSet {
        BlockPanics(c, s, s.peers[a], m);
      }
    } else if m[0] == REQUEST && Proper(c, s, s.peers[a], m) {
      ProperAnswer(c, s, s.peers[a], m);
    }
  }

  lemma ProperBlock(c: Config, s: State, p: Peer, m: seq<byte>)
    requires c.Valid() && s.pieceSet <= c.t.AllPieces() && m != [] && m[0] == PIECE && Proper(c, s, p, m)
    ensures |m| >= 9 && CheckPieceMessage(c, s, m) == None
    ensures Field(m, 1) !in s.pieceSet ==> Field(m, 1) in s.active
  {
    hide Field;
  }

  lemma ProperAnswer(c: Config, s: State, p: Peer, m: seq<byte>)
    requires c.Valid() && s.pieceSet <= c.t.AllPieces() && m != [] && m[0] == REQUEST && Proper(c, s, p, m)
    ensures |m| == 13 && CheckOurBlock(c, s, m) == None
  {
    hide Field;
  }

  lemma BlockPanics(c: Config, s: State, p: Peer, m: seq<byte>)
    requires c.Valid() && Inv(c, s) && m != [] && m[0] == PIECE && |m| >= 9 && CheckPieceMessage(c, s, m) == None
    requires Field(m, 1) !in s.pieceSet && Field(m, 1) in s.active
    ensures Crashes(c, s, p, m) <==>
              || OutsidePiece(c, Field(m, 1), Field(m, 5))
              || (&& OnlyMissing(s.active[Field(m, 1)].counts, Field(m, 5) / STANDARD_BLOCK_LENGTH)
                  && !c.t.HasHash(Field(m, 1)))
  {
    hide Inv, Field, Torrent.HasHash, CheckPieceMessage;
    var k, begin := Field(m, 1), Field(m, 5);
    ActiveShape(c, s, k);
    c.t.BlockBounds(k);
    BlockOutside(c, k, begin);
    if begin / STANDARD_BLOCK_LENGTH < c.t.BlockCount(k) {
      LastOne(s.active[k].counts, begin / STANDARD_BLOCK_LENGTH);
    }
  }

  lemma ActiveShape(c: Config, s: State, k: nat)
    requires c.Valid() && Inv(c, s) && k in s.active
    ensures k < c.t.totalPieces && |s.active[k].counts| == c.t.BlockCount(k)
  {
    assert ActiveOk(c, s.pieceSet, k, s.active[k]);
  }

  lemma BlockOutside(c: Config, k: nat, begin: nat)
    requires c.Valid() && k < c.t.totalPieces
    ensures OutsidePiece(c, k, begin) <==>
              begin > c.t.PieceLength(k) || begin / STANDARD_BLOCK_LENGTH >= c.t.BlockCount(k)
  {
    c.t.BlockBounds(k);
  }
}
