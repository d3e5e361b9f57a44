/** What we hold of a peer is what it has told us: its flags and pieces are those of the messages that came over its
    connection, replayed in order. */
module SessionHeard {
  import opened Arith
  import opened Bytes
  import opened Geometry
  import opened SessionState
  import opened SessionInvariant
  import opened SessionRun
  import opened SessionDeliveries
  import opened SessionReplies
  import opened SessionWire
  import SessionTheorems

  /** `welcome` as long as a bitfield is welcome. */
  datatype Heard = Heard(have: set<nat>, interested: bool, choking: bool, welcome: bool)

  const NOTHING_HEARD := Heard({}, false, true, true)

  /** One more message that was accepted: the last bitfield counts, and every HAVE after it; of each pair of signals the
      last one counts; and a bitfield is welcome until anything but a keep-alive, a request or an extension has come. */
  ghost function After(c: Config, h: Heard, m: seq<byte>): Heard {
    if m == [] || m[0] == REQUEST || m[0] == EXTENSION then h
    else if m == [CHOKE] then h.(choking := true, welcome := false)
    else if m == [UNCHOKE] then h.(choking := false, welcome := false)
    else if m == [INTERESTED] then h.(interested := true, welcome := false)
    else if m == [NOT_INTERESTED] then h.(interested := false, welcome := false)
    else if m[0] == BITFIELD then h.(have := Bits(c, m), welcome := false)
    else if m[0] == HAVE && |m| == 5 then h.(have := h.have + {Field(m, 1)}, welcome := false)
    else h.(welcome := false)
  }

  ghost function AfterEvent(c: Config, h: Heard, e: Event, a: Address): Heard {
    if e.Message? && e.address == a && e.message.Some? then After(c, h, e.message.value) else h
  }

  ghost function Replay(c: Config, h: Heard, events: seq<Event>, a: Address): Heard
    decreases |events|
  {
    if events == [] then h else Replay(c, AfterEvent(c, h, events[0], a), events[1..], a)
  }

  ghost function HeardOf(p: Peer): Heard {
    Heard(p.have, p.peerInterested, p.peerChoking, p.canReceiveBitfield)
  }

  // ---- One event ----

  /** The same peers are connected, and everyone but perhaps one has told us nothing. */
  ghost predicate OthersSilent(before: map<Address, Peer>, after: map<Address, Peer>, a: Address) {
    after.Keys == before.Keys && forall b | b in before && b != a :: HeardOf(after[b]) == HeardOf(before[b])
  }

  lemma NextSilent(c: Config, s: State, a: Address, now: int, s': State)
    requires RequestsNext(c, s, a, now, s')
    ensures a in s.peers && a in s'.peers && HeardOf(s'.peers[a]) == HeardOf(s.peers[a])
    ensures OthersSilent(s.peers, s'.peers, a)
  {
    hide RequestsNext, OneOrNone;
    NextTouches(c, s, a, now, s');
  }

  lemma ChokingSilent(s: State, s': State, a: Address)
    requires OnlyChoking(s, s')
    ensures OthersSilent(s.peers, s'.peers, a)
    ensures a in s.peers ==> a in s'.peers && HeardOf(s'.peers[a]) == HeardOf(s.peers[a])
  {
    forall b | b in s.peers
      ensures HeardOf(s'.peers[b]) == HeardOf(s.peers[b])
    {
      assert OnlyChoked(s.peers[b], s'.peers[b]);
    }
  }

  lemma AllHearSilent(c: Config, s: State, a: Address, s1: State, piece: nat, begin: nat, stored: bool, bad: bool)
    requires piece in s.active && begin / STANDARD_BLOCK_LENGTH < |s.active[piece].counts| && a in s.peers
    requires AllHear(c, s, a, s1, piece, begin, stored, bad)
    ensures a in s1.peers && HeardOf(s1.peers[a]) == HeardOf(s.peers[a]) && OthersSilent(s.peers, s1.peers, a)
  {
    hide Pack, IsBlock, IsHave, BlockSize;
    var shared := s.active[piece].counts[begin / STANDARD_BLOCK_LENGTH] > 1;
    forall b | b in s.peers
      ensures b in s1.peers && HeardOf(s1.peers[b]) == HeardOf(s.peers[b])
    {
      assert Hears(c, s.peers[b], s1.peers[b], b == a, shared, piece, begin, stored, bad);
    }
  }

  lemma TakesSilent(c: Config, s: State, a: Address, piece: nat, begin: nat, data: seq<byte>, s1: State)
    requires c.Valid() && |s.flat| == c.t.totalSize && s.pieceSet <= c.t.AllPieces() && piece in s.active
    requires begin / STANDARD_BLOCK_LENGTH < |s.active[piece].counts| && piece < c.t.totalPieces && a in s.peers
    requires Takes(c, s, a, piece, begin, data, s1)
    ensures a in s1.peers && HeardOf(s1.peers[a]) == HeardOf(s.peers[a]) && OthersSilent(s.peers, s1.peers, a)
  {
    hide Overwritten, Torrent.Good, Torrent.Slice, OnlyMissing, AllHear, HeardOf, OthersSilent;
    var buffer :| Overwritten(s.active[piece].buffer, buffer, begin, data)
                  && if !OnlyMissing(s.active[piece].counts, begin / STANDARD_BLOCK_LENGTH) then
                       AllHear(c, s, a, s1, piece, begin, false, false)
                     else if !c.t.Good(buffer, piece) then AllHear(c, s, a, s1, piece, begin, false, true)
                     else AllHear(c, s, a, s1, piece, begin, true, false);
    if !OnlyMissing(s.active[piece].counts, begin / STANDARD_BLOCK_LENGTH) {
      AllHearSilent(c, s, a, s1, piece, begin, false, false);
    } else {
      AllHearSilent(c, s, a, s1, piece, begin, c.t.Good(buffer, piece), !c.t.Good(buffer, piece));
    }
  }

  lemma UnchokeReplayed(c: Config, s: State, a: Address, now: int, s': State)
    requires Gets(c, s, a, [UNCHOKE], now, s') && a in s.peers
    ensures a in s'.peers && HeardOf(s'.peers[a]) == HeardOf(s.peers[a]).(choking := false, welcome := false)
    ensures OthersSilent(s.peers, s'.peers, a)
  {
    hide Gets, RequestsNext;
    UnchokeHeard(c, s, a, now, s');
    var s0 := s.(peers := s.peers[a := s.peers[a].(peerChoking := false)]);
    var s1, s2 :| RequestsNext(c, s0, a, now, s1) && RequestsNext(c, s1, a, now, s2) && a in s2.peers
                  && s' == s2.(peers := s2.peers[a := s2.peers[a].(canReceiveBitfield := false)]);
    NextSilent(c, s0, a, now, s1);
    NextSilent(c, s1, a, now, s2);
  }

  lemma BlockReplayed(c: Config, s: State, a: Address, m: seq<byte>, now: int, s': State)
    requires Gets(c, s, a, m, now, s') && a in s.peers && m != [] && Proper(c, s, s.peers[a], m) && m[0] == PIECE
    requires |m| >= 9 && Field(m, 1) !in s.pieceSet
    ensures a in s'.peers && HeardOf(s'.peers[a]) == HeardOf(s.peers[a]).(welcome := false)
    ensures OthersSilent(s.peers, s'.peers, a)
  {
    hide Gets, Proper, RequestsNext, Takes, Field, SessionTheorems.Fits;
    BlockHeard(c, s, a, m, now, s');
    FitsShape(c, s, m);
    var s1, s2 :| Takes(c, s, a, Field(m, 1), Field(m, 5), m[9..], s1) && RequestsNext(c, s1, a, now, s2)
                  && a in s2.peers && s' == s2.(peers := s2.peers[a := s2.peers[a].(canReceiveBitfield := false)]);
    TakesSilent(c, s, a, Field(m, 1), Field(m, 5), m[9..], s1);
    NextSilent(c, s1, a, now, s2);
  }

  lemma InterestReplayed(c: Config, s: State, a: Address, m: seq<byte>, now: int, s': State)
    requires Gets(c, s, a, m, now, s') && a in s.peers && (m == [INTERESTED] || m == [NOT_INTERESTED])
    ensures a in s'.peers
    ensures HeardOf(s'.peers[a]) == HeardOf(s.peers[a]).(interested := m == [INTERESTED], welcome := false)
    ensures OthersSilent(s.peers, s'.peers, a)
  {
    hide Gets, OnlyChoking;
    InterestHeard(c, s, a, m, now, s');
    var p := s.peers[a].(peerInterested := m == [INTERESTED], canReceiveBitfield := false);
    ChokingSilent(s.(peers := s.peers[a := p]), s', a);
  }

  /** The signals, which are messages of one byte. */
  lemma SignalReplayed(c: Config, s: State, a: Address, m: seq<byte>, now: int, s': State)
    requires Gets(c, s, a, m, now, s') && a in s.peers && |m| == 1 && m[0] <= NOT_INTERESTED
    ensures a in s'.peers && HeardOf(s'.peers[a]) == After(c, HeardOf(s.peers[a]), m)
    ensures OthersSilent(s.peers, s'.peers, a)
  {
    hide Gets, TakenOff;
    assert m == [m[0]];
    if m[0] == CHOKE {
      ChokeHeard(c, s, a, now, s');
    } else if m[0] == UNCHOKE {
      UnchokeReplayed(c, s, a, now, s');
    } else {
      InterestReplayed(c, s, a, m, now, s');
    }
  }

  lemma RequestReplayed(c: Config, s: State, a: Address, m: seq<byte>, now: int, s': State)
    requires Gets(c, s, a, m, now, s') && a in s.peers && m != [] && Proper(c, s, s.peers[a], m) && m[0] == REQUEST
    ensures a in s'.peers && HeardOf(s'.peers[a]) == HeardOf(s.peers[a]) && OthersSilent(s.peers, s'.peers, a)
  {
    hide Gets, CheckMessage, Crashes, Proper, Field, PieceMessage, PaddedRead, CacheKeeps, Inv;
    Given(c, s, a, m, now, s');
    Accepted(c, s, a, m, now, s');
    LongRequest(c, s, s.peers[a], m);
    RequestEffect(c, s, a, m, now, s');
  }

  lemma LongRequest(c: Config, s: State, p: Peer, m: seq<byte>)
    requires c.Valid() && s.pieceSet <= c.t.AllPieces() && m != [] && m[0] == REQUEST && Proper(c, s, p, m)
    ensures |m| == 13 && Field(m, 1) < c.t.totalPieces
  {
    hide Field;
  }

  /** What we hold of the sender is as after its message; what we hold of the others is not changed. */
  lemma MessageReplayed(c: Config, s: State, a: Address, m: seq<byte>, now: int, s': State)
    requires Gets(c, s, a, m, now, s') && a in s.peers && m != [] && a in s'.peers
    ensures HeardOf(s'.peers[a]) == After(c, HeardOf(s.peers[a]), m) && OthersSilent(s.peers, s'.peers, a)
  {
    hide Gets, Field, Bits, HasBit;
    WhenClosed(c, s, a, m, now, s');
    if m[0] <= NOT_INTERESTED {
      SignalReplayed(c, s, a, m, now, s');
    } else if m[0] == HAVE {
      HaveHeard(c, s, a, m, now, s', Field(m, 1));
    } else if m[0] == BITFIELD {
      BitfieldHeard(c, s, a, m, now, s');
    } else if m[0] == REQUEST {
      RequestReplayed(c, s, a, m, now, s');
    } else if m[0] == PIECE && Field(m, 1) !in s.pieceSet {
      BlockReplayed(c, s, a, m, now, s');
    } else if m[0] == EXTENSION {
      ExtensionHeard(c, s, a, m, now, s');
    } else {
      Unanswered(c, s, a, m, now, s');
    }
  }

  lemma OtherReplayed(c: Config, s: State, e: Event, s': State, a: Address)
    requires c.Valid() && Inv(c, s) && Step(c, s, e, s') && a in s.peers && a in s'.peers
    requires !(e.Connect? && e.address == a)
    requires e.Message? && e.message.Some? ==> e.message.value == [] || e.address != a
    ensures HeardOf(s'.peers[a]) == HeardOf(s.peers[a])
  {
    hide Inv, Effect, CheckMessage, Crashes, ChokePeers, TakenOff, OnlyChoking, Proper, HeardOf;
    match e
    case ChokeTick =>
      Ticks(c, s, s');
      ChokingSilent(s, s', a);
    case Connect(b, id, greeting) => Connects(c, s, e, s');
    case Message(b, m, now) =>
      if m == None {
        ConnectionEnds(c, s, e, s');
      } else if m.value != [] {
        assert Gets(c, s, b, m.value, now, s');
        WhenClosed(c, s, b, m.value, now, s');
        if b in s'.peers {
          MessageReplayed(c, s, b, m.value, now, s');
        } else {
          ConnectionEnds(c, s, e, s');
        }
      }
    case KeepAlive(b, now) =>
      KeptAlive(c, s, b, now, s');
      SilentSend(s.peers[b], []);
    case Expire(b) => ConnectionEnds(c, s, e, s');
  }

  lemma SilentSend(p: Peer, m: seq<byte>)
    ensures HeardOf(p.(sent := p.sent + [m])) == HeardOf(p)
  {
  }

  lemma EventReplayed(c: Config, s: State, e: Event, s': State, a: Address)
    requires c.Valid() && Inv(c, s) && Step(c, s, e, s') && a in s.peers && a in s'.peers
    requires !(e.Connect? && e.address == a)
    ensures HeardOf(s'.peers[a]) == AfterEvent(c, HeardOf(s.peers[a]), e, a)
  {
    hide Inv, Effect, CheckMessage, Crashes, HeardOf;
    if e.Message? && e.address == a && e.message.Some? && e.message.value != [] {
      assert Gets(c, s, a, e.message.value, e.now, s');
      MessageReplayed(c, s, a, e.message.value, e.now, s');
    } else {
      OtherReplayed(c, s, e, s', a);
    }
  }

  // ---- Whole connections ----

  ghost predicate NoConnect(events: seq<Event>, a: Address) {
    forall e | e in events :: !(e.Connect? && e.address == a)
  }

  lemma StaysGone(c: Config, s: State, e: Event, s': State, a: Address)
    requires c.Valid() && Inv(c, s) && Step(c, s, e, s') && a !in s.peers && !(e.Connect? && e.address == a)
    ensures a !in s'.peers
  {
    hide Inv, Effect, CheckMessage, Crashes, ChokePeers, Proper, TakenOff;
    match e
    case ChokeTick => Ticks(c, s, s');
    case Connect(b, id, greeting) => Connects(c, s, e, s');
    case Message(b, m, now) =>
      if m == None {
        ConnectionEnds(c, s, e, s');
      } else if m.value != [] {
        assert Gets(c, s, b, m.value, now, s');
        WhenClosed(c, s, b, m.value, now, s');
        if b in s'.peers {
          MessageReplayed(c, s, b, m.value, now, s');
        } else {
          ConnectionEnds(c, s, e, s');
        }
      }
    case KeepAlive(b, now) => KeptAlive(c, s, b, now, s');
    case Expire(b) => ConnectionEnds(c, s, e, s');
  }

  lemma {:induction false} GoneForGood(c: Config, s: State, events: seq<Event>, s': State, a: Address)
    requires c.Valid() && Inv(c, s) && Reaches(c, s, events, s') && a !in s.peers && NoConnect(events, a)
    ensures a !in s'.peers
    decreases |events|
  {
    hide Step, Inv;
    if events != [] {
      var s1 :| Step(c, s, events[0], s1) && Reaches(c, s1, events[1..], s');
      StepKeeps(c, s, events[0], s1);
      StaysGone(c, s, events[0], s1, a);
      GoneForGood(c, s1, events[1..], s', a);
    }
  }

  /** Over a connection that lasts: what we hold of the peer is the replay of the messages that came over it. */
  lemma {:induction false} ConnectionReplayed(c: Config, s: State, events: seq<Event>, s': State, a: Address)
    requires c.Valid() && Inv(c, s) && Reaches(c, s, events, s') && a in s.peers && a in s'.peers
    requires NoConnect(events, a)
    ensures HeardOf(s'.peers[a]) == Replay(c, HeardOf(s.peers[a]), events, a)
    decreases |events|
  {
    hide Step, Inv, HeardOf, AfterEvent;
    if events != [] {
      var s1 :| Step(c, s, events[0], s1) && Reaches(c, s1, events[1..], s');
      StepKeeps(c, s, events[0], s1);
      if a !in s1.peers {
        GoneForGood(c, s1, events[1..], s', a);
      } else {
        EventReplayed(c, s, events[0], s1, a);
        ConnectionReplayed(c, s1, events[1..], s', a);
      }
    }
  }

  /** From the moment of its connection on. */
  lemma PeersAreAsTheySaid(c: Config, s: State, e: Event, s1: State, events: seq<Event>, s': State)
    requires c.Valid() && Inv(c, s) && Step(c, s, e, s1) && e.Connect? && s1 != s
    requires Reaches(c, s1, events, s') && NoConnect(events, e.address) && e.address in s'.peers
    ensures HeardOf(s'.peers[e.address]) == Replay(c, NOTHING_HEARD, events, e.address)
  {
    hide Inv, Reaches, Replay;
    StepKeeps(c, s, e, s1);
    Connects(c, s, e, s1);
    ConnectionReplayed(c, s1, events, s', e.address);
  }
}
