/** Statements about every reachable state of a session, in terms of what a user of the program can observe. */
module SessionLimits {
  import opened Arith
  import opened Bytes
  import opened Geometry
  import opened SessionState
  import opened SessionInvariant
  import opened SessionRun
  import opened SessionTheorems
  import SessionLoad
  import Hashing

  // ---- From load to the first state ----

  /** The session that starts from what load returned, over the same files. */
  function Beginning(loaded: SessionLoad.Loaded, flat: seq<byte>): State
    requires loaded.Ready?
  {
    State(loaded.pieceSet, loaded.goodPieces, loaded.left, None, map[], map[], flat, map[])
  }

  /** What load returns is a state from which the session may start, and after an initial check every piece that we have
      is stored with the right hash. */
  lemma LoadedIsInitial(c: Config, flat: seq<byte>, pieces: seq<byte>, sha1: Hash, memory: int, initialCheck: bool,
                        resume: Option<seq<byte>>, loaded: SessionLoad.Loaded)
    requires c.Valid() && loaded.Ready? && loaded.t == c.t && |flat| >= 1
    requires SessionLoad.Loads(flat, c.t.pieceLength, pieces, sha1, memory, initialCheck, resume, loaded)
    ensures Initial(c, Beginning(loaded, flat))
    ensures initialCheck ==> Verified(c.t, loaded.pieceSet, flat)
  {
    hide Hashing.GoodPieces, SessionLoad.Loads, Accounting, Verified;
    SessionLoad.LoadsReady(flat, c.t.pieceLength, pieces, sha1, memory, initialCheck, resume, loaded);
    if initialCheck {
      AllGood(c.t, flat, loaded.pieceSet);
    }
  }

  lemma AllGood(t: Torrent, flat: seq<byte>, elems: set<nat>)
    requires t.Valid() && |flat| == t.totalSize && Hashing.GoodPieces(t, flat, elems, t.totalPieces)
    ensures elems <= t.AllPieces() && Verified(t, elems, flat)
  {
  }

  // ---- Memory ----

  function BufferBytes(active: map<nat, Active>, n: nat): nat {
    if n == 0 then 0 else BufferBytes(active, n - 1) + if n - 1 in active then |active[n - 1].buffer| else 0
  }

  lemma {:induction false} BuffersAreLengths(c: Config, pieceSet: set<nat>, active: map<nat, Active>, n: nat)
    requires ActivesOk(c, pieceSet, active)
    ensures BufferBytes(active, n) == c.t.SumLengths(active.Keys, n)
  {
    if n > 0 {
      BuffersAreLengths(c, pieceSet, active, n - 1);
      assert n - 1 in active ==> ActiveOk(c, pieceSet, n - 1, active[n - 1]);
    }
  }

  /** The buffers of all active pieces together fit into the memory, or are those of a single piece. */
  lemma MemoryBounded(c: Config, s: State, memory: nat)
    requires c.Valid() && Inv(c, s) && SessionLoad.WithinMemory(c.maxActive, memory, c.t.pieceLength)
    ensures BufferBytes(s.active, c.t.totalPieces) <= Max(memory * SessionLoad.MEBIBYTE, c.t.pieceLength)
  {
    var t := c.t;
    BuffersAreLengths(c, s.pieceSet, s.active, t.totalPieces);
    assert forall k | k in s.active.Keys :: ActiveOk(c, s.pieceSet, k, s.active[k]);
    t.SumAtMost(s.active.Keys, t.totalPieces);
    assert |s.active.Keys| == |s.active|;
    FewPieces(|s.active|, c.maxActive, memory, t.pieceLength);
  }

  lemma FewPieces(n: nat, maxActive: nat, memory: nat, pieceLength: nat)
    requires n <= maxActive && SessionLoad.WithinMemory(maxActive, memory, pieceLength)
    ensures n * pieceLength <= Max(memory * SessionLoad.MEBIBYTE, pieceLength)
  {
    MulMonotone(n, maxActive, pieceLength);
  }

  // ---- Requests ----

  /** The least of the counts that are not -1, first among equals. */
  lemma {:induction false} LeastCount(counts: seq<int>, n: nat) returns (b: int)
    requires n <= |counts|
    ensures b == -1 ==> forall j | 0 <= j < n :: counts[j] < 0
    ensures b != -1 ==>
      && 0 <= b < n && counts[b] >= 0
      && (forall j | 0 <= j < n && counts[j] >= 0 :: counts[b] <= counts[j])
      && (forall j | 0 <= j < b && counts[j] >= 0 :: counts[b] < counts[j])
  {
    if n == 0 {
      b := -1;
    } else {
      b := LeastCount(counts, n - 1);
      if counts[n - 1] >= 0 && (b == -1 || counts[n - 1] < counts[b]) {
        b := n - 1;
      }
    }
  }

  /** In endgame mode every active piece has a block to ask for. */
  lemma EndgameFindsBlock(c: Config, s: State, k: nat)
    requires c.Valid() && Inv(c, s) && k in s.active
    ensures exists b :: EndgameBlock(s.active[k].counts, b)
  {
    var counts := s.active[k].counts;
    assert ActiveOk(c, s.pieceSet, k, s.active[k]);
    var missing :| 0 <= missing < |counts| && counts[missing] != -1;
    var b := LeastCount(counts, |counts|);
    assert EndgameBlock(counts, b);
  }

  // ---- Every reachable state ----

  /** A state that some events lead to from a loaded session. */
  ghost predicate Reachable(c: Config, s: State)
    requires c.Valid()
  {
    exists s0, events :: Initial(c, s0) && Reaches(c, s0, events, s)
  }

  lemma ReachableInv(c: Config, s: State)
    requires c.Valid() && Reachable(c, s)
    ensures Inv(c, s)
  {
    var s0, events :| Initial(c, s0) && Reaches(c, s0, events, s);
    InitialInv(c, s0);
    RunKeeps(c, s0, events, s);
  }

  /** Storing an active piece does not take the counter below zero. */
  lemma NoUnderflow(c: Config, s: State, k: nat)
    requires c.Valid() && Inv(c, s) && k in s.active
    ensures k !in s.pieceSet && c.t.PieceLength(k) <= s.left
    ensures Uint64Minus(s.left, c.t.PieceLength(k)) == s.left - c.t.PieceLength(k)
  {
    hide Accounting, Torrent.Valid, Uint64Minus;
    assert ActiveOk(c, s.pieceSet, k, s.active[k]);
    StoredAccounting(c, s, k);
    SmallMinus(s.left, c.t.PieceLength(k));
  }

  /** The counters tell the truth: pieces held, bytes missing, and no wrap below zero when a piece is stored. */
  lemma CountersTell(c: Config, s: State)
    requires c.Valid() && Reachable(c, s)
    ensures s.goodPieces == |s.pieceSet| && s.pieceSet <= c.t.AllPieces()
    ensures s.left + c.t.SumLengths(s.pieceSet, c.t.totalPieces) == c.t.totalSize
    ensures forall k | k in s.active :: k !in s.pieceSet && c.t.PieceLength(k) <= s.left
                                     && Uint64Minus(s.left, c.t.PieceLength(k)) == s.left - c.t.PieceLength(k)
  {
    ReachableInv(c, s);
    c.t.HeldPlusMissing(s.pieceSet);
    forall k | k in s.active
      ensures k !in s.pieceSet && c.t.PieceLength(k) <= s.left
      ensures Uint64Minus(s.left, c.t.PieceLength(k)) == s.left - c.t.PieceLength(k)
    {
      NoUnderflow(c, s, k);
    }
  }

  /** We are interested in every peer that has a piece we lack, and the peer was told so. */
  lemma NeverUnderInterested(c: Config, s: State, a: Address)
    requires c.Valid() && Reachable(c, s) && a in s.peers && Interesting(s.pieceSet, s.peers[a])
    ensures s.peers[a].amInterested && Signal(s.peers[a].sent, INTERESTED, NOT_INTERESTED, false)
  {
    ReachableInv(c, s);
    assert PeerOk(c, s.pieceSet, s.peers[a]);
  }

  /** At most four peers are both interested and unchoked, and every peer was last told how it stands. */
  lemma UploadSlots(c: Config, s: State)
    requires c.Valid() && Reachable(c, s)
    ensures |Uploading(s.peers)| <= 4 && |s.peers| <= 60
    ensures forall a | a in s.peers :: Signal(s.peers[a].sent, CHOKE, UNCHOKE, true) == s.peers[a].amChoking
                                    && Alternates(s.peers[a].sent, CHOKE, UNCHOKE, true)
  {
    ReachableInv(c, s);
    forall a | a in s.peers
      ensures SignalsOk(s.peers[a])
    {
      assert PeerOk(c, s.pieceSet, s.peers[a]);
    }
  }

  /** No verified piece meets a cached copy that would keep it from the store, and the cache repeats the store. */
  lemma CacheNeverInTheWay(c: Config, s: State)
    requires c.Valid() && Reachable(c, s)
    ensures forall k | k in s.active :: k !in s.boxes
    ensures |s.flat| == c.t.totalSize
    ensures forall i | i in s.boxes :: i < c.t.totalPieces && s.boxes[i] == c.t.Slice(s.flat, i)
  {
    ReachableInv(c, s);
    forall k | k in s.active
      ensures k !in s.boxes
    {
      assert ActiveOk(c, s.pieceSet, k, s.active[k]);
    }
  }

  /** The active pieces are bounded in number and memory, and none of them is complete. */
  lemma DownloadsBounded(c: Config, s: State, memory: nat)
    requires c.Valid() && Reachable(c, s)
    ensures |s.active| <= c.maxActive
    ensures forall k | k in s.active :: !Complete(s.active[k].counts) && |s.active[k].buffer| == c.t.PieceLength(k)
                                     && |s.active[k].counts| == c.t.BlockCount(k)
                                     && exists b :: EndgameBlock(s.active[k].counts, b)
    ensures SessionLoad.WithinMemory(c.maxActive, memory, c.t.pieceLength)
            ==> BufferBytes(s.active, c.t.totalPieces) <= Max(memory * SessionLoad.MEBIBYTE, c.t.pieceLength)
  {
    ReachableInv(c, s);
    if SessionLoad.WithinMemory(c.maxActive, memory, c.t.pieceLength) {
      MemoryBounded(c, s, memory);
    }
    forall k | k in s.active
      ensures ActiveOk(c, s.pieceSet, k, s.active[k]) && exists b :: EndgameBlock(s.active[k].counts, b)
    {
      assert ActiveOk(c, s.pieceSet, k, s.active[k]);
      EndgameFindsBlock(c, s, k);
    }
  }
}
