/** The count of a block against the peers that were asked for it: which operations keep the two equal, and exactly
    when the others do. */
module SessionCounts {
  import opened Arith
  import opened Bytes
  import opened Geometry
  import opened SessionState
  import opened SessionInvariant
  import opened SessionRun
  import opened SessionWitness
  import SessionBlocks
  import SessionLimits
  import SessionSteps
  import Bitsets

  function KeyOf(k: nat, b: nat): nat {
    Pack(k, b * STANDARD_BLOCK_LENGTH)
  }

  /** The peers with an outstanding request for the block. */
  ghost function Holders(peers: map<Address, Peer>, key: nat): set<Address> {
    set a | a in peers && key in peers[a].ourRequests
  }

  /** A block that is missing was asked of as many peers as its count says. */
  ghost predicate AgreesAt(peers: map<Address, Peer>, k: nat, counts: seq<int>, b: nat)
    requires b < |counts|
  {
    counts[b] >= 0 ==> counts[b] == |Holders(peers, KeyOf(k, b))|
  }

  ghost predicate AgreesOn(peers: map<Address, Peer>, k: nat, counts: seq<int>) {
    forall b: nat | b < |counts| :: AgreesAt(peers, k, counts, b)
  }

  /** The counts of all active pieces say how many requests are outstanding. */
  ghost predicate Agrees(s: State) {
    forall k | k in s.active :: AgreesOn(s.peers, k, s.active[k].counts)
  }

  /** One of the requests is for a missing block of an active piece. */
  ghost predicate AsksForMissing(s: State, keys: set<nat>) {
    exists k, b: nat :: k in s.active && b < |s.active[k].counts| && s.active[k].counts[b] >= 0 && KeyOf(k, b) in keys
  }

  // ---- Steps that leave the requests alone ----

  ghost predicate SameRequests(before: map<Address, Peer>, after: map<Address, Peer>) {
    after.Keys == before.Keys && forall a | a in before :: after[a].ourRequests.Keys == before[a].ourRequests.Keys
  }

  lemma SameHolders(before: map<Address, Peer>, after: map<Address, Peer>, key: nat)
    requires SameRequests(before, after)
    ensures Holders(after, key) == Holders(before, key)
  {
  }

  lemma RequestsUntouched(s: State, s': State)
    requires Agrees(s) && s'.active == s.active && SameRequests(s.peers, s'.peers)
    ensures Agrees(s')
  {
    forall k, b: nat | k in s.active && b < |s.active[k].counts|
      ensures AgreesAt(s'.peers, k, s'.active[k].counts, b)
    {
      assert AgreesAt(s.peers, k, s.active[k].counts, b);
      SameHolders(s.peers, s'.peers, KeyOf(k, b));
    }
  }

  // ---- Forgetting ----

  lemma LessAt(counts: seq<int>, k: nat, keys: set<nat>, b: nat)
    requires b < |counts|
    ensures LessAsked(counts, k, keys)[b] == if KeyOf(k, b) in keys && counts[b] > 0 then counts[b] - 1 else counts[b]
  {
  }

  /** All requests of a peer are forgotten together with the peer, or with its list of requests. */
  lemma ForgottenAgrees(s: State, a: Address, peers: map<Address, Peer>)
    requires Agrees(s) && a in s.peers
    requires forall key :: Holders(peers, key) == Holders(s.peers, key) - {a}
    ensures Agrees(Forgotten(s, s.peers[a].ourRequests.Keys).(peers := peers))
  {
    var keys := s.peers[a].ourRequests.Keys;
    forall k, b: nat | k in s.active && b < |s.active[k].counts|
      ensures AgreesAt(peers, k, LessAsked(s.active[k].counts, k, keys), b)
    {
      assert AgreesAt(s.peers, k, s.active[k].counts, b);
      LessAt(s.active[k].counts, k, keys, b);
      assert KeyOf(k, b) in keys <==> a in Holders(s.peers, KeyOf(k, b));
    }
  }

  lemma CloseAgrees(s: State, a: Address)
    requires Agrees(s) && a in s.peers
    ensures Agrees(ClosePeer(s, a))
  {
    forall key
      ensures Holders(s.peers - {a}, key) == Holders(s.peers, key) - {a}
    {
    }
    ForgottenAgrees(s, a, s.peers - {a});
  }

  lemma ChokeAgrees(s: State, a: Address)
    requires Agrees(s) && a in s.peers
    ensures Agrees(DoChoke(s, a))
  {
    var peers := s.peers[a := s.peers[a].(peerChoking := true, ourRequests := map[])];
    forall key
      ensures Holders(peers, key) == Holders(s.peers, key) - {a}
    {
    }
    ForgottenAgrees(s, a, peers);
  }

  /** A time-out takes a request off the count but leaves it outstanding: the two agree afterwards if and only if no
      request that timed out is for a missing block of an active piece. */
  lemma TimeOutAgrees(s: State, a: Address, now: int)
    requires Agrees(s) && a in s.peers
    ensures Agrees(Forgotten(s, TimedOut(s.peers[a], now))) <==> !AsksForMissing(s, TimedOut(s.peers[a], now))
  {
    var keys := TimedOut(s.peers[a], now);
    var s' := Forgotten(s, keys);
    forall k, b: nat | k in s.active && b < |s.active[k].counts|
      ensures AgreesAt(s'.peers, k, s'.active[k].counts, b) <==> s.active[k].counts[b] < 0 || KeyOf(k, b) !in keys
    {
      assert AgreesAt(s.peers, k, s.active[k].counts, b);
      LessAt(s.active[k].counts, k, keys, b);
      assert KeyOf(k, b) in keys ==> a in Holders(s.peers, KeyOf(k, b));
    }
    if !AsksForMissing(s, keys) {
      forall k | k in s'.active
        ensures AgreesOn(s'.peers, k, s'.active[k].counts)
      {
      }
    } else {
      var k, b: nat :| k in s.active && b < |s.active[k].counts| && s.active[k].counts[b] >= 0 && KeyOf(k, b) in keys;
      assert k in s'.active && !AgreesAt(s'.peers, k, s'.active[k].counts, b);
    }
  }

  // ---- Connections ----

  /** A new connection takes the place of a peer with the same address, whose requests stay in the counts. */
  lemma ConnectAgrees(c: Config, s: State, a: Address, id: string, greeting: seq<byte>)
    requires Agrees(s)
    ensures Agrees(AddPeer(c, s, a, id, greeting))
            <==> AddPeer(c, s, a, id, greeting) == s || a !in s.peers || !AsksForMissing(s, s.peers[a].ourRequests.Keys)
  {
    hide Agrees, AsksForMissing;
    var s' := AddPeer(c, s, a, id, greeting);
    if s' != s {
      OverwriteAgrees(s, a, Send(NewPeer(id), greeting));
    }
  }

  lemma OverwriteAgrees(s: State, a: Address, p: Peer)
    requires Agrees(s) && p.ourRequests == map[]
    ensures Agrees(WithPeer(s, a, p)) <==> a !in s.peers || !AsksForMissing(s, s.peers[a].ourRequests.Keys)
  {
    hide KeyOf;
    var s' := WithPeer(s, a, p);
    var keys := if a in s.peers then s.peers[a].ourRequests.Keys else {};
    forall k, b: nat | k in s.active && b < |s.active[k].counts|
      ensures AgreesAt(s'.peers, k, s'.active[k].counts, b) <==> s.active[k].counts[b] < 0 || KeyOf(k, b) !in keys
    {
      assert AgreesAt(s.peers, k, s.active[k].counts, b);
      OverwrittenHolders(s.peers, a, p, KeyOf(k, b));
    }
    if AsksForMissing(s, keys) {
      var k, b: nat :| k in s.active && b < |s.active[k].counts| && s.active[k].counts[b] >= 0 && KeyOf(k, b) in keys;
      assert !AgreesOn(s'.peers, k, s'.active[k].counts);
    }
  }

  lemma OverwrittenHolders(peers: map<Address, Peer>, a: Address, p: Peer, key: nat)
    requires p.ourRequests == map[]
    ensures Holders(peers[a := p], key) == Holders(peers, key) - {a}
    ensures a in Holders(peers, key) <==> a in peers && key in peers[a].ourRequests
  {
  }

  // ---- Requesting ----

  lemma AskedHolders(c: Config, peers: map<Address, Peer>, a: Address, k: nat, b: nat, now: int, key: nat)
    requires a in peers
    ensures Holders(peers[a := Asked(c, peers[a], k, b, now)], key)
         == Holders(peers, key) + if key == KeyOf(k, b) then {a} else {}
  {
  }

  /** Different blocks have different keys. */
  lemma KeysApart(c: Config, k: nat, b: nat, l: nat, d: nat)
    requires c.Valid() && k < c.t.totalPieces && b < c.t.BlockCount(k) && l < c.t.totalPieces && d < c.t.BlockCount(l)
    ensures KeyOf(k, b) == KeyOf(l, d) <==> k == l && b == d
  {
    if KeyOf(k, b) == KeyOf(l, d) {
      SessionSteps.PackInjective(c, k, b, l, d);
    }
  }

  /** Different blocks of active pieces have different keys. */
  lemma OneKeyEach(c: Config, s: State, k: nat, b: nat, l: nat, d: nat)
    requires c.Valid() && ActivesOk(c, s.pieceSet, s.active) && k in s.active && l in s.active
    requires b < |s.active[k].counts| && d < |s.active[l].counts| && KeyOf(k, b) == KeyOf(l, d)
    ensures k == l && b == d
  {
    assert ActiveOk(c, s.pieceSet, k, s.active[k]) && ActiveOk(c, s.pieceSet, l, s.active[l]);
    KeysApart(c, k, b, l, d);
  }

  /** A request changes nothing for other blocks. */
  lemma OtherBlock(c: Config, s: State, a: Address, k: nat, b: nat, now: int, l: nat, d: nat)
    requires c.Valid() && ActivesOk(c, s.pieceSet, s.active) && a in s.peers && k in s.active && l in s.active
    requires b < |s.active[k].counts| && d < |s.active[l].counts| && (k != l || b != d)
    ensures var s' := Requested(c, s, a, k, b, now);
            AgreesAt(s'.peers, l, s'.active[l].counts, d) <==> AgreesAt(s.peers, l, s.active[l].counts, d)
  {
    hide KeyOf, Asked, ActivesOk;
    AskedHolders(c, s.peers, a, k, b, now, KeyOf(l, d));
    if KeyOf(k, b) == KeyOf(l, d) {
      OneKeyEach(c, s, k, b, l, d);
    }
  }

  lemma ThisBlock(c: Config, s: State, a: Address, k: nat, b: nat, now: int)
    requires a in s.peers && k in s.active && b < |s.active[k].counts| && s.active[k].counts[b] >= 0
    ensures var s' := Requested(c, s, a, k, b, now);
            AgreesAt(s'.peers, k, s'.active[k].counts, b)
            <==> s.active[k].counts[b] + 1 == |Holders(s.peers, KeyOf(k, b)) + {a}|
  {
    hide Asked;
    AskedHolders(c, s.peers, a, k, b, now, KeyOf(k, b));
  }

  /** Asking for a block of an active piece: the two agree afterwards if and only if the same peer was not asked for
      the block before. */
  lemma RequestedAgrees(c: Config, s: State, a: Address, k: nat, b: nat, now: int)
    requires c.Valid() && ActivesOk(c, s.pieceSet, s.active) && Agrees(s) && a in s.peers && k in s.active
    requires b < |s.active[k].counts| && s.active[k].counts[b] >= 0
    ensures Agrees(Requested(c, s, a, k, b, now)) <==> KeyOf(k, b) !in s.peers[a].ourRequests
  {
    hide KeyOf, ActivesOk, Asked;
    var s' := Requested(c, s, a, k, b, now);
    assert AgreesAt(s.peers, k, s.active[k].counts, b);
    ThisBlock(c, s, a, k, b, now);
    assert KeyOf(k, b) in s.peers[a].ourRequests <==> a in Holders(s.peers, KeyOf(k, b));
    forall l, d: nat | l in s.active && d < |s.active[l].counts| && (k != l || b != d)
      ensures AgreesAt(s'.peers, l, s'.active[l].counts, d)
    {
      assert AgreesAt(s.peers, l, s.active[l].counts, d);
      OtherBlock(c, s, a, k, b, now, l, d);
    }
    assert Agrees(s') ==> AgreesOn(s'.peers, k, s'.active[k].counts);
  }

  /** Outside endgame mode the block that is asked for was asked of nobody. */
  lemma FreeBlockAgrees(c: Config, s: State, a: Address, now: int, s': State)
    requires c.Valid() && ActivesOk(c, s.pieceSet, s.active) && Agrees(s) && a in s.peers
    requires RequestsActive(c, s, a, now, false, s')
    ensures Agrees(s')
  {
    hide Requested, ActivesOk, KeyOf;
    var k, b: nat :| k in s.active && k in s.peers[a].have && FreeBlock(s.active[k].counts, b)
                     && s' == Requested(c, s, a, k, b, now);
    assert AgreesAt(s.peers, k, s.active[k].counts, b);
    assert a !in Holders(s.peers, KeyOf(k, b));
    RequestedAgrees(c, s, a, k, b, now);
  }

  /** A request for a block of the piece is outstanding, other than one at this peer for the first block. */
  ghost predicate Stale(c: Config, s: State, a: Address, k: nat) {
    exists q, b: nat ::
      q in s.peers && b < c.t.BlockCount(k) && KeyOf(k, b) in s.peers[q].ourRequests && (q != a || b != 0)
  }

  lemma FreshCounts(c: Config, s: State, a: Address, k: nat, now: int, b: nat)
    requires a in s.peers && b < c.t.BlockCount(k)
    ensures |Started(c, s, k).active[k].counts| == c.t.BlockCount(k)
    ensures var counts := Requested(c, Started(c, s, k), a, k, 0, now).active[k].counts;
            |counts| == c.t.BlockCount(k) && counts[b] == if b == 0 then 1 else 0
  {
  }

  lemma NewBlock(c: Config, s: State, a: Address, k: nat, now: int, b: nat)
    requires c.Valid() && a in s.peers && k < c.t.totalPieces && b < c.t.BlockCount(k)
    ensures var s' := Requested(c, Started(c, s, k), a, k, 0, now);
            && |s'.active[k].counts| == c.t.BlockCount(k)
            && (AgreesAt(s'.peers, k, s'.active[k].counts, b)
                <==> forall q | q in s.peers && KeyOf(k, b) in s.peers[q].ourRequests :: q == a && b == 0)
  {
    hide KeyOf, Asked, Fresh, Bumped, Config.Valid, Torrent.BlockCount;
    var holders := Holders(s.peers, KeyOf(k, b));
    FreshCounts(c, s, a, k, now, b);
    AskedHolders(c, s.peers, a, k, 0, now, KeyOf(k, b));
    assert forall q :: q in holders <==> q in s.peers && KeyOf(k, b) in s.peers[q].ourRequests;
    if b > 0 {
      KeysApart(c, k, 0, k, b);
      assert holders + {} == holders && (|holders| == 0 <==> holders == {});
    } else {
      AlsoHeld(holders, a);
    }
  }

  lemma AlsoHeld(holders: set<Address>, a: Address)
    ensures 1 == |holders + {a}| <==> forall q | q in holders :: q == a
  {
    assert holders + {a} == (holders - {a}) + {a};
    assert |holders + {a}| == |holders - {a}| + 1;
    if holders - {a} == {} {
      assert forall q | q in holders :: q == a;
    }
  }

  lemma OtherPiece(c: Config, s: State, a: Address, k: nat, now: int, l: nat, d: nat)
    requires c.Valid() && ActivesOk(c, s.pieceSet, s.active) && a in s.peers && k < c.t.totalPieces
    requires k !in s.active && c.t.BlockCount(k) > 0 && l in s.active && d < |s.active[l].counts|
    ensures Holders(s.peers[a := Asked(c, s.peers[a], k, 0, now)], KeyOf(l, d)) == Holders(s.peers, KeyOf(l, d))
  {
    hide Asked;
    assert ActiveOk(c, s.pieceSet, l, s.active[l]);
    AskedHolders(c, s.peers, a, k, 0, now, KeyOf(l, d));
    KeysApart(c, k, 0, l, d);
  }

  /** Starting a piece: the two agree afterwards if and only if no request for the piece was left over. */
  lemma StartedAgrees(c: Config, s: State, a: Address, k: nat, now: int)
    requires c.Valid() && ActivesOk(c, s.pieceSet, s.active) && Agrees(s)
    requires a in s.peers && k < c.t.totalPieces && k !in s.active && c.t.BlockCount(k) > 0
    ensures Agrees(Requested(c, Started(c, s, k), a, k, 0, now)) <==> !Stale(c, s, a, k)
  {
    hide KeyOf, Asked, Fresh, Config.Valid, Torrent.BlockCount, ActivesOk;
    FreshCounts(c, s, a, k, now, 0);
    var s' := Requested(c, Started(c, s, k), a, k, 0, now);
    forall l, d: nat | l in s.active && d < |s.active[l].counts|
      ensures l in s'.active && s'.active[l] == s.active[l] && AgreesAt(s'.peers, l, s'.active[l].counts, d)
    {
      assert AgreesAt(s.peers, l, s.active[l].counts, d);
      OtherPiece(c, s, a, k, now, l, d);
    }
    forall b: nat | b < c.t.BlockCount(k)
      ensures AgreesAt(s'.peers, k, s'.active[k].counts, b)
              <==> forall q | q in s.peers && KeyOf(k, b) in s.peers[q].ourRequests :: q == a && b == 0
    {
      NewBlock(c, s, a, k, now, b);
    }
    assert AgreesOn(s'.peers, k, s'.active[k].counts) <==> !Stale(c, s, a, k);
  }

  /** A block of an active piece is asked for that the peer was asked for before. */
  ghost predicate AsksAgain(c: Config, s: State, a: Address, now: int, s': State)
    requires a in s.peers
  {
    exists k, b: nat ::
      && k in s.active && b < |s.active[k].counts| && s.active[k].counts[b] >= 0
      && KeyOf(k, b) in s.peers[a].ourRequests && s' == Requested(c, s, a, k, b, now)
  }

  /** A piece is started for which requests were left over. */
  ghost predicate StartsStale(c: Config, s: State, a: Address, now: int, s': State)
    requires a in s.peers
  {
    exists k: nat ::
      && k !in s.active && k < c.t.totalPieces && c.t.BlockCount(k) > 0 && Stale(c, s, a, k)
      && s' == Requested(c, Started(c, s, k), a, k, 0, now)
  }

  lemma ActiveRequestAgrees(c: Config, s: State, a: Address, now: int, endgame: bool, s': State)
    requires c.Valid() && ActivesOk(c, s.pieceSet, s.active) && Agrees(s) && a in s.peers
    requires RequestsActive(c, s, a, now, endgame, s')
    ensures Agrees(s') || AsksAgain(c, s, a, now, s')
  {
    hide Requested, ActivesOk, KeyOf, Agrees;
    var k, b: nat :|
      && k in s.active && k in s.peers[a].have
      && (if endgame then EndgameBlock(s.active[k].counts, b) else FreeBlock(s.active[k].counts, b))
      && s' == Requested(c, s, a, k, b, now);
    RequestedAgrees(c, s, a, k, b, now);
  }

  lemma StartAgrees(c: Config, s: State, a: Address, now: int, s': State)
    requires c.Valid() && ActivesOk(c, s.pieceSet, s.active) && Agrees(s) && a in s.peers
    requires StartsPiece(c, s, a, now, s')
    ensures Agrees(s') || StartsStale(c, s, a, now, s')
  {
    hide Requested, ActivesOk, Agrees, Stale, KeyOf, Torrent.BlockCount;
    var k: nat :|
      && Unclaimed(s, s.peers[a], k) && k < c.t.totalPieces
      && c.t.BlockCount(k) > 0
      && s' == Requested(c, Started(c, s, k), a, k, 0, now);
    StartedAgrees(c, s, a, k, now);
  }

  lemma AgainDisagrees(c: Config, s: State, a: Address, now: int, s': State)
    requires c.Valid() && ActivesOk(c, s.pieceSet, s.active) && Agrees(s) && a in s.peers
    requires AsksAgain(c, s, a, now, s') || StartsStale(c, s, a, now, s')
    ensures !Agrees(s')
  {
    hide Requested, ActivesOk, Agrees, Stale, KeyOf, Torrent.BlockCount;
    if AsksAgain(c, s, a, now, s') {
      var k, b: nat :|
        && k in s.active && b < |s.active[k].counts| && s.active[k].counts[b] >= 0
        && KeyOf(k, b) in s.peers[a].ourRequests && s' == Requested(c, s, a, k, b, now);
      RequestedAgrees(c, s, a, k, b, now);
    } else {
      var k: nat :|
        && k !in s.active && k < c.t.totalPieces && c.t.BlockCount(k) > 0 && Stale(c, s, a, k)
        && s' == Requested(c, Started(c, s, k), a, k, 0, now);
      StartedAgrees(c, s, a, k, now);
    }
  }

  /** RequestBlock loses the agreement if and only if it asks the same peer again or starts a piece for which requests
      were left over. */
  lemma RequestBlockAgrees(c: Config, s: State, a: Address, now: int, s': State)
    requires c.Valid() && Inv(c, s) && Agrees(s) && a in s.peers && RequestBlock(c, s, a, now, s')
    ensures !Agrees(s') <==> AsksAgain(c, s, a, now, s') || StartsStale(c, s, a, now, s')
  {
    hide RequestsActive, StartsPiece, Agrees, AsksAgain, StartsStale, Unclaimed, NoFreeBlock, Complete;
    var p := s.peers[a];
    if AsksAgain(c, s, a, now, s') || StartsStale(c, s, a, now, s') {
      AgainDisagrees(c, s, a, now, s');
    }
    if RequestsActive(c, s, a, now, false, s') {
      FreeBlockAgrees(c, s, a, now, s');
    } else if |s.active| >= c.maxActive {
    } else if exists k :: Unclaimed(s, p, k) {
      StartAgrees(c, s, a, now, s');
    } else if exists k :: k in s.active && k in p.have && !Complete(s.active[k].counts) {
      ActiveRequestAgrees(c, s, a, now, true, s');
    } else {
      LosesInterestAgrees(s, a);
    }
  }

  lemma LosesInterestAgrees(s: State, a: Address)
    requires Agrees(s) && a in s.peers
    ensures Agrees(WithPeer(s, a, SetInterested(s.peers[a], false)))
  {
    RequestsUntouched(s, WithPeer(s, a, SetInterested(s.peers[a], false)));
  }

  // ---- Receiving ----

  /** An answer forgets requests for its own block only. */
  lemma OtherAnswer(c: Config, p: Peer, sender: bool, piece: nat, begin: nat, asked: int, k: nat, b: nat)
    requires begin < TWO_TO_THE_32 && b * STANDARD_BLOCK_LENGTH < TWO_TO_THE_32
    requires k != piece || b != begin / STANDARD_BLOCK_LENGTH
    ensures KeyOf(k, b) in Answer(c, p, sender, piece, begin, asked).ourRequests <==> KeyOf(k, b) in p.ourRequests
  {
    Unpack(piece, begin);
    SessionSteps.UnpackBlock(k, b);
    SessionSteps.UnpackBlock(piece, begin / STANDARD_BLOCK_LENGTH);
  }

  lemma MarkedAgrees(c: Config, s: State, a: Address, piece: nat, begin: nat)
    requires c.Valid() && ActivesOk(c, s.pieceSet, s.active) && Agrees(s) && a in s.peers && piece in s.active
    requires begin < TWO_TO_THE_32 && begin / STANDARD_BLOCK_LENGTH < |s.active[piece].counts|
    ensures Agrees(Marked(c, s, a, piece, begin))
  {
    hide KeyOf, Answered, Config.Valid, ActivesOk;
    var s', block := Marked(c, s, a, piece, begin), begin / STANDARD_BLOCK_LENGTH;
    forall k, b: nat | k in s.active && b < |s.active[k].counts| && (k != piece || b != block)
      ensures AgreesAt(s'.peers, k, s'.active[k].counts, b)
    {
      assert AgreesAt(s.peers, k, s.active[k].counts, b);
      OtherHolders(c, s, a, piece, begin, k, b);
    }
  }

  lemma OtherHolders(c: Config, s: State, a: Address, piece: nat, begin: nat, k: nat, b: nat)
    requires c.Valid() && ActivesOk(c, s.pieceSet, s.active) && a in s.peers && piece in s.active && k in s.active
    requires begin < TWO_TO_THE_32 && begin / STANDARD_BLOCK_LENGTH < |s.active[piece].counts|
    requires b < |s.active[k].counts| && (k != piece || b != begin / STANDARD_BLOCK_LENGTH)
    ensures Holders(Marked(c, s, a, piece, begin).peers, KeyOf(k, b)) == Holders(s.peers, KeyOf(k, b))
  {
    hide KeyOf, Answer, Config.Valid;
    var asked := s.active[piece].counts[begin / STANDARD_BLOCK_LENGTH];
    assert ActiveOk(c, s.pieceSet, k, s.active[k]);
    SessionSteps.BlockBegins(c, k, b);
    forall q | q in s.peers
      ensures KeyOf(k, b) in Answer(c, s.peers[q], q == a, piece, begin, asked).ourRequests
              <==> KeyOf(k, b) in s.peers[q].ourRequests
    {
      OtherAnswer(c, s.peers[q], q == a, piece, begin, asked, k, b);
    }
  }

  lemma LessActiveAgrees(s: State, s': State, piece: nat)
    requires Agrees(s) && SameRequests(s.peers, s'.peers) && s'.active == s.active - {piece}
    ensures Agrees(s')
  {
    RequestsUntouched(s, s.(peers := s'.peers));
    forall k | k in s'.active
      ensures AgreesOn(s'.peers, k, s'.active[k].counts)
    {
      assert AgreesOn(s'.peers, k, s.active[k].counts);
    }
  }

  lemma CopiedAgrees(s: State, piece: nat, begin: nat, data: seq<byte>)
    requires Agrees(s) && piece in s.active && begin <= |s.active[piece].buffer|
    ensures Agrees(Copied(s, piece, begin, data))
  {
    var s' := Copied(s, piece, begin, data);
    forall k | k in s'.active
      ensures AgreesOn(s'.peers, k, s'.active[k].counts)
    {
      assert AgreesOn(s.peers, k, s.active[k].counts);
    }
  }

  lemma AnnouncedRequests(peers: map<Address, Peer>, piece: nat)
    ensures SameRequests(peers, Announced(peers, piece))
  {
  }

  lemma ClosedRequests(peers: map<Address, Peer>, a: Address)
    requires a in peers
    ensures SameRequests(peers, peers[a := peers[a].(closed := true)])
  {
  }

  /** A block that is received, whoever sends it and whatever becomes of its piece, keeps the agreement. */
  lemma RecordBlockAgrees(c: Config, s: State, a: Address, piece: nat, begin: nat, s': State)
    requires c.Valid() && Inv(c, s) && Agrees(s) && a in s.peers && piece in s.active && piece < c.t.totalPieces
    requires |s.active[piece].buffer| == c.t.PieceLength(piece)
    requires begin < TWO_TO_THE_32 && begin / STANDARD_BLOCK_LENGTH < |s.active[piece].counts|
    requires RecordBlock(c, s, a, piece, begin, s')
    ensures Agrees(s')
  {
    MarkedAgrees(c, s, a, piece, begin);
    RecordedAgrees(c, s, a, piece, begin, s');
  }

  lemma RecordedAgrees(c: Config, s: State, a: Address, piece: nat, begin: nat, s': State)
    requires c.Valid() && |s.flat| == c.t.totalSize && a in s.peers && piece in s.active && piece < c.t.totalPieces
    requires |s.active[piece].buffer| == c.t.PieceLength(piece)
    requires begin / STANDARD_BLOCK_LENGTH < |s.active[piece].counts|
    requires Agrees(Marked(c, s, a, piece, begin)) && RecordBlock(c, s, a, piece, begin, s')
    ensures Agrees(s')
  {
    hide Agrees, Torrent.Good, Complete, Answered, SameRequests, Announced, CacheKeeps, Bytes.Splice;
    var m := Marked(c, s, a, piece, begin);
    assert a in m.peers by {
      AnsweredHas(c, s.peers, a, piece, begin, s.active[piece].counts[begin / STANDARD_BLOCK_LENGTH]);
    }
    AnnouncedRequests(m.peers, piece);
    ClosedRequests(m.peers, a);
    if Complete(m.active[piece].counts) {
      LessActiveAgrees(m, s', piece);
    }
  }

  lemma AnsweredHas(c: Config, peers: map<Address, Peer>, a: Address, piece: nat, begin: nat, asked: int)
    requires a in peers
    ensures a in Answered(c, peers, a, piece, begin, asked)
  {
  }

  // ---- Events ----

  /** The event leads to further requests. */
  ghost predicate LeadsToRequests(s: State, e: Event) {
    && e.Message? && e.message.Some? && e.message.value != []
    && (e.message.value[0] == UNCHOKE || Receives(s, e.message.value))
  }

  /** A time-out of a missing block, or a new connection in the place of a peer that was asked for one. */
  ghost predicate Loses(c: Config, s: State, e: Event) {
    match e
    case KeepAlive(a, now) => a in s.peers && AsksForMissing(s, TimedOut(s.peers[a], now))
    case Connect(a, id, greeting) =>
      && AddPeer(c, s, a, id, greeting) != s
      && a in s.peers && AsksForMissing(s, s.peers[a].ourRequests.Keys)
    case _ => false
  }

  lemma PutSame(peers: map<Address, Peer>, a: Address, p: Peer)
    requires a in peers && p.ourRequests == peers[a].ourRequests
    ensures SameRequests(peers, peers[a := p])
  {
  }

  lemma LateSame(s: State, a: Address, p: Peer)
    requires a in s.peers && p.ourRequests == s.peers[a].ourRequests
    ensures SameRequests(s.peers, Late(WithPeer(s, a, p), a).peers)
  {
  }

  lemma RechokedRequests(peers: map<Address, Peer>, chosen: set<Address>)
    ensures SameRequests(peers, Rechoked(peers, chosen))
  {
  }

  lemma InterestRequests(s: State, a: Address, interested: bool, s': State)
    requires a in s.peers && PeerInterest(s, a, interested, s')
    ensures SameRequests(s.peers, s'.peers)
  {
    hide Rechoked, InterestedPeers;
    var s0 := WithPeer(s, a, s.peers[a].(peerInterested := interested));
    var s1 :| ChokePeers(s0, s1) && a in s1.peers && s' == Late(s1, a);
    var chosen :| chosen <= InterestedPeers(s0.peers) && s1 == s0.(peers := Rechoked(s0.peers, chosen));
    PutSame(s.peers, a, s0.peers[a]);
    RechokedRequests(s0.peers, chosen);
    PutSame(s1.peers, a, s'.peers[a]);
  }

  lemma AnswerRequests(c: Config, s: State, a: Address, piece: nat, begin: nat, length: nat, s': State)
    requires c.Valid() && |s.flat| == c.t.totalSize && a in s.peers && piece < c.t.totalPieces
    requires SessionState.SendRequest(c, s, a, piece, begin, length, s')
    ensures SameRequests(s.peers, s'.peers)
  {
    hide PieceMessage, PaddedRead;
  }

  lemma FlatSize(c: Config, s: State)
    requires c.Valid() && Inv(c, s)
    ensures |s.flat| == c.t.totalSize
  {
  }

  lemma HaveRequests(s: State, p: Peer, n: nat)
    ensures HasPiece(s, p, n).ourRequests == p.ourRequests
  {
  }

  lemma BitfieldRequests(s: State, p: Peer, pieces: set<nat>)
    ensures HasPieces(s, p, pieces).ourRequests == p.ourRequests
  {
  }

  lemma OtherEffectRequests(c: Config, s: State, a: Address, m: seq<byte>, now: int, s': State)
    requires c.Valid() && Inv(c, s) && a in s.peers && m != []
    requires CheckMessage(c, s, s.peers[a], m) == None && !Crashes(c, s, s.peers[a], m)
    requires Effect(c, s, a, m, now, s') && !Receives(s, m) && m[0] != CHOKE && m[0] != UNCHOKE
    ensures SameRequests(s.peers, s'.peers)
  {
    hide Inv, CheckSpan, Crashes, Rechoked, SameRequests, PeerInterest, SessionState.SendRequest, Unchoke, ReceivePiece;
    hide BitfieldMessage, Bitsets.Decode, HasPieces, HasPiece;
    FlatSize(c, s);
    if m[0] == INTERESTED || m[0] == NOT_INTERESTED {
      InterestRequests(s, a, m[0] == INTERESTED, s');
    } else if m[0] == REQUEST {
      AnswerRequests(c, s, a, Field(m, 1), Field(m, 5), Field(m, 9), s');
    } else if m[0] == HAVE {
      HaveRequests(s, s.peers[a], Field(m, 1));
      LateSame(s, a, HasPiece(s, s.peers[a], Field(m, 1)));
    } else if m[0] == BITFIELD {
      BitfieldRequests(s, s.peers[a], Bitsets.Decode(c.t.totalPieces, m[1..]).value);
      LateSame(s, a, HasPieces(s, s.peers[a], Bitsets.Decode(c.t.totalPieces, m[1..]).value));
    } else if m[0] == EXTENSION {
      PutSame(s.peers, a, Send(s.peers[a], BitfieldMessage(c, s.pieceSet)));
    } else {
      PutSame(s.peers, a, s.peers[a].(canReceiveBitfield := false));
    }
  }

  lemma EffectAgrees(c: Config, s: State, a: Address, m: seq<byte>, now: int, s': State)
    requires c.Valid() && Inv(c, s) && Agrees(s) && a in s.peers && m != []
    requires CheckMessage(c, s, s.peers[a], m) == None && !Crashes(c, s, s.peers[a], m)
    requires Effect(c, s, a, m, now, s') && !Receives(s, m) && m[0] != UNCHOKE
    ensures Agrees(s')
  {
    hide Agrees, SameRequests;
    if m[0] == CHOKE {
      ChokeAgrees(s, a);
      LateAgrees(DoChoke(s, a), a);
    } else {
      OtherEffects(c, s, a, m, now, s');
      OtherEffectRequests(c, s, a, m, now, s');
      RequestsUntouched(s, s');
    }
  }

  lemma LateAgrees(s: State, a: Address)
    requires Agrees(s) && a in s.peers
    ensures Agrees(Late(s, a))
  {
    RequestsUntouched(s, Late(s, a));
  }

  lemma KeepAliveAgrees(s: State, a: Address, now: int)
    requires Agrees(s) && a in s.peers
    ensures Agrees(WithPeer(Forgotten(s, TimedOut(s.peers[a], now)), a, Send(s.peers[a], [])))
            <==> !AsksForMissing(s, TimedOut(s.peers[a], now))
  {
    hide AsksForMissing, TimedOut, Forgotten, AgreesOn;
    var s0 := Forgotten(s, TimedOut(s.peers[a], now));
    var s' := WithPeer(s0, a, Send(s.peers[a], []));
    SessionSteps.ForgottenFrame(s, TimedOut(s.peers[a], now));
    TimeOutAgrees(s, a, now);
    if Agrees(s0) {
      RequestsUntouched(s0, s');
    }
    if Agrees(s') {
      RequestsUntouched(s', s0);
    }
  }

  lemma TickAgrees(s: State, s': State)
    requires Agrees(s) && ChokePeers(s, s')
    ensures Agrees(s')
  {
    hide Agrees, Rechoked, InterestedPeers;
    var chosen :| chosen <= InterestedPeers(s.peers) && s' == s.(peers := Rechoked(s.peers, chosen));
    RechokedRequests(s.peers, chosen);
    RequestsUntouched(s, s');
  }

  /** Unless it leads to further requests, an event loses the agreement if and only if it is such a time-out or such a
      connection: chokes, closed connections, and everything else keep it. */
  lemma StepAgrees(c: Config, s: State, e: Event, s': State)
    requires c.Valid() && Inv(c, s) && Agrees(s) && Step(c, s, e, s') && !LeadsToRequests(s, e)
    ensures !Agrees(s') <==> Loses(c, s, e)
  {
    hide Agrees, AsksForMissing, AddPeer, ClosePeer, Effect, TimedOut, Forgotten, ChokePeers;
    match e
    case ChokeTick => TickAgrees(s, s');
    case Connect(a, id, greeting) => ConnectAgrees(c, s, a, id, greeting);
    case Message(a, m, now) =>
      CloseAgrees(s, a);
      if m.Some? && m.value != [] && CheckMessage(c, s, s.peers[a], m.value) == None {
        EffectAgrees(c, s, a, m.value, now, s');
      }
    case KeepAlive(a, now) => KeepAliveAgrees(s, a, now);
    case Expire(a) => CloseAgrees(s, a);
  }

  /** The request asks the same peer again, or starts a piece for which requests were left over. */
  ghost predicate Errs(c: Config, s: State, a: Address, now: int, s': State) {
    a in s.peers && (AsksAgain(c, s, a, now, s') || StartsStale(c, s, a, now, s'))
  }

  lemma LateAlike(s: State, a: Address)
    requires a in s.peers
    ensures Agrees(Late(s, a)) <==> Agrees(s)
  {
    hide AgreesOn;
    if Agrees(s) {
      RequestsUntouched(s, Late(s, a));
    }
    if Agrees(Late(s, a)) {
      RequestsUntouched(Late(s, a), s);
    }
  }

  /** A delivery keeps the agreement up to the request that follows it, and that request alone decides. */
  lemma DeliveryAgrees(c: Config, s: State, a: Address, piece: nat, begin: nat, data: seq<byte>, now: int, s': State)
    requires c.Valid() && Inv(c, s) && Agrees(s) && a in s.peers && piece in s.active && piece < c.t.totalPieces
    requires |s.active[piece].buffer| == c.t.PieceLength(piece) && begin <= c.t.PieceLength(piece)
    requires begin / STANDARD_BLOCK_LENGTH < |s.active[piece].counts|
    requires ReceivePiece(c, s, a, piece, begin, data, now, s')
    ensures exists s1, s2 ::
      && RecordBlock(c, Copied(s, piece, begin, data), a, piece, begin, s1) && Agrees(s1)
      && a in s1.peers && RequestBlock(c, s1, a, now, s2) && a in s2.peers && s' == Late(s2, a)
      && (!Agrees(s') <==> Errs(c, s1, a, now, s2))
  {
    hide Agrees, Inv, RecordBlock, RequestBlock, AsksAgain, StartsStale;
    FlatSize(c, s);
    var s0 := Copied(s, piece, begin, data);
    var s1, s2 :| RecordBlock(c, s0, a, piece, begin, s1) && a in s1.peers
                  && RequestBlock(c, s1, a, now, s2) && a in s2.peers && s' == Late(s2, a);
    c.t.PieceBounds(piece);
    CopiedAgrees(s, piece, begin, data);
    CopiedKeeps(c, s, piece, begin, data);
    RecordBlockKeeps(c, s0, a, piece, begin, s1);
    RecordBlockAgrees(c, s0, a, piece, begin, s1);
    RequestBlockAgrees(c, s1, a, now, s2);
    LateAlike(s2, a);
  }

  /** Of the two requests that follow an UNCHOKE each one decides, as long as the one before it kept the agreement. */
  lemma UnchokeAgrees(c: Config, s: State, a: Address, now: int, s': State)
    requires c.Valid() && Inv(c, s) && Agrees(s) && a in s.peers && Unchoke(c, s, a, now, s')
    ensures exists s1, s2 ::
      && RequestBlock(c, Unchoking(s, a), a, now, s1) && a in s1.peers
      && RequestBlock(c, s1, a, now, s2) && a in s2.peers && s' == Late(s2, a)
      && (!Agrees(s1) <==> Errs(c, Unchoking(s, a), a, now, s1))
      && (Agrees(s1) ==> (!Agrees(s') <==> Errs(c, s1, a, now, s2)))
  {
    hide Agrees, Inv, RequestBlock, AsksAgain, StartsStale;
    var s0 := Unchoking(s, a);
    var s1, s2 :| RequestBlock(c, s0, a, now, s1) && a in s1.peers
                  && RequestBlock(c, s1, a, now, s2) && a in s2.peers && s' == Late(s2, a);
    PutSame(s.peers, a, s0.peers[a]);
    RequestsUntouched(s, s0);
    SessionSteps.UnchokedSound(c, s, a);
    RequestBlockKeeps(c, s0, a, now, s1);
    RequestBlockAgrees(c, s0, a, now, s1);
    if Agrees(s1) {
      RequestBlockAgrees(c, s1, a, now, s2);
    }
    LateAlike(s2, a);
  }

  function Unchoking(s: State, a: Address): State
    requires a in s.peers
  {
    WithPeer(s, a, s.peers[a].(peerChoking := false))
  }

  // ---- The two do differ ----

  /** For every configuration there is a reachable state in which they differ: a block was asked for, and more than
      thirty seconds later it is still missing. */
  lemma SometimesDiffer(c: Config)
    requires c.Valid()
    ensures exists s :: SessionLimits.Reachable(c, s) && !Agrees(s)
  {
    hide Agrees, Inv, TimedOut, SessionLimits.Reachable, Step;
    var s, a := Downloading(c, 0, 0);
    if Agrees(s) {
      var s' := WaitedTooLong(c, s, a);
    }
  }

  lemma WaitedTooLong(c: Config, s: State, a: Address) returns (s': State)
    requires At(c, s, a) && Agrees(s) && 0 in s.active && AskedAt(s.peers[a], Pack(0, 0), 0)
    requires |s.active[0].counts| > 0 && s.active[0].counts[0] >= 0
    ensures SessionLimits.Reachable(c, s') && !Agrees(s')
  {
    hide Agrees, SessionLimits.Reachable, Forgotten, Inv;
    var now := REQUEST_TIMEOUT + 1;
    assert KeyOf(0, 0) in TimedOut(s.peers[a], now);
    assert AsksForMissing(s, TimedOut(s.peers[a], now));
    s' := WithPeer(Forgotten(s, TimedOut(s.peers[a], now)), a, Send(s.peers[a], []));
    KeepAliveAgrees(s, a, now);
    NextReachable(c, s, KeepAlive(a, now), s');
  }
}
