/** A session from opening the torrent to the end of its run. */
module SessionStart {
  import opened Bytes
  import opened Files
  import opened Geometry
  import opened CacheBudget
  import opened SessionState
  import opened SessionInvariant
  import opened SessionInputs
  import opened SessionLoad
  import opened Session
  import opened Stores
  import opened Peers
  import SessionLimits
  import SessionRun
  import SessionSteps

  /** With a cache provider a new cache is put on the file store, and all caches share the budget anew. */
  method OpenStore(fs: FileStore, t: Torrent, cacher: RamCacheProvider?, infohash: string)
    returns (store: Store, ghost order: seq<string>)
    requires fs.Valid() && t.Valid() && fs.pieceSize == t.pieceLength && |fs.contents| == t.totalSize
    requires t.totalPieces == PieceCount(t.totalSize, t.pieceLength) && (cacher != null ==> cacher.Valid())
    modifies if cacher == null then {} else {cacher} + cacher.caches.Values
    ensures store.Valid(t) && (store.Cached? <==> cacher != null) && store.Files() == fs
    ensures fresh(store.Objects() - {fs} - fs.Arrays())
    ensures store.Contents() == old(fs.contents) && store.Boxes() == map[]
    ensures cacher != null ==> cacher.caches == old(cacher.caches)[infohash := store.cache]
    ensures cacher != null ==> cacher.Valid() && cacher.Balanced(order)
  {
    order := [];
    if cacher == null {
      store := Plain(fs);
    } else {
      var cache;
      cache, order := cacher.NewCache(infohash, t.totalPieces, t.pieceLength, t.totalSize, fs);
      store := Cached(cache);
    }
  }

  /** A session of a loaded torrent, in the state that load describes. */
  method Open(fs: FileStore, loaded: Loaded, ourId: string, quickResume: bool, cacher: RamCacheProvider?,
              infohash: string)
    returns (session: TorrentSession)
    requires loaded.Ready? && CanOpen(loaded) && (cacher != null ==> cacher.Valid())
    requires fs.Valid() && fs.pieceSize == loaded.t.pieceLength && |fs.contents| == loaded.t.totalSize
    modifies if cacher == null then {} else {cacher} + cacher.caches.Values
    ensures fresh(session) && fresh(session.policy) && session.policy.Valid() && session.policy.calls == []
    ensures session.c == Config(loaded.t, loaded.maxActive, ourId, cacher != null, quickResume)
    ensures forall o | o in session.store.Objects() :: fresh(o) || o == fs || o in fs.Arrays()
    ensures session.peers.Values == {} && session.activePieces.Values == {}
    ensures session.Wired() && session.StoreReady() && SessionSteps.Sound(session.c, session.State())
    ensures session.State() == SessionLimits.Beginning(loaded, old(fs.contents))
  {
    hide SessionSteps.Sound, Accounting, PieceCount;
    var c := Config(loaded.t, loaded.maxActive, ourId, cacher != null, quickResume);
    OpenValid(c, loaded);
    var store, _ := OpenStore(fs, loaded.t, cacher, infohash);
    session := new TorrentSession(c, store, loaded.pieceSet, loaded.goodPieces, loaded.left);
    Started(c, loaded, store.Contents());
    assert session.peers.Keys == session.State().peers.Keys && session.activePieces.Keys == session.State().active.Keys;
    assert session.peers == map[] && session.activePieces == map[];
  }

  /** The torrent is loaded, its store is opened, and the main loop takes the inputs as exactly these events. It panics
      in the state `last` if and only if an input is left that was not handled. A session whose memory limit overflows
      to a negative number of pieces is not run. */
  method RunTorrent(fs: FileStore, pieceLength: nat, pieces: seq<byte>, sha1: Hash, memoryPerTorrent: int,
                    initialCheck: bool, quickResume: bool, resumeFile: Option<seq<byte>>, workers: nat, ourId: string,
                    cacher: RamCacheProvider?, infohash: string, inputs: seq<Input>, rates: seq<PeerState -> real>)
    returns (loaded: Loaded, session: TorrentSession?, crashed: bool, ghost handled: nat,
             ghost events: seq<SessionRun.Event>, ghost last: State)
    requires fs.Valid() && fs.pieceSize == pieceLength && workers >= 1 && 1 <= |fs.contents| < TWO_TO_THE_63
    requires pieceLength < TWO_TO_THE_32 - 9
    requires pieceLength >= 1 ==> PieceCount(|fs.contents|, pieceLength) < TWO_TO_THE_32
    requires cacher != null ==> cacher.Valid()
    requires |rates| == |inputs| && forall i | 0 <= i < |inputs| :: inputs[i].Ok()
    modifies fs, fs.Arrays(), if cacher == null then {} else {cacher} + cacher.caches.Values
    ensures Loads(old(fs.contents), pieceLength, pieces, sha1, memoryPerTorrent, initialCheck,
                  if quickResume then resumeFile else None, loaded)
    ensures session == null <==> loaded.Failed? || loaded.maxActive < 1
    ensures session == null ==> !crashed
    ensures session != null ==>
      && session.c == Config(loaded.t, loaded.maxActive, ourId, cacher != null, quickResume) && handled <= |inputs|
      && Processes(session.c, SessionLimits.Beginning(loaded, old(fs.contents)), inputs[..handled], events, last)
      && (crashed <==> handled < |inputs|) && (crashed ==> Kills(session.c, last, inputs[handled]))
      && (!crashed ==> session.Wired() && session.StoreReady() && last == session.State())
      && session.policy.Valid()
  {
    hide SessionSteps.Sound, Loads, Accounting, PieceCount, Processes, Kills;
    ghost var flat := fs.contents;
    var resume := if quickResume then resumeFile else None;
    loaded := Load(fs, pieceLength, pieces, sha1, memoryPerTorrent, initialCheck, resume, workers);
    crashed, session := false, null;
    handled, events, last := 0, [], EmptyState();
    if loaded.Ready? && loaded.maxActive >= 1 {
      LoadsReady(flat, pieceLength, pieces, sha1, memoryPerTorrent, initialCheck, resume, loaded);
      session := Open(fs, loaded, ourId, quickResume, cacher, infohash);
      crashed, handled, events, last := session.DoTorrent(inputs, rates, session.State());
    }
  }

  /** What such a run means: whatever the inputs, and whether or not the last of them makes the program panic, the
      session is in a state that the theorems about reachable states speak of, and after an initial check every piece
      that we have is stored with the right hash. */
  lemma RunIsSound(flat: seq<byte>, pieces: seq<byte>, sha1: Hash, memoryPerTorrent: int, initialCheck: bool,
                   resume: Option<seq<byte>>, loaded: Loaded, c: Config, inputs: seq<Input>,
                   events: seq<SessionRun.Event>, last: State)
    requires |flat| >= 1 && loaded.Ready? && c.t == loaded.t && c.Valid()
    requires Loads(flat, c.t.pieceLength, pieces, sha1, memoryPerTorrent, initialCheck, resume, loaded)
    requires Processes(c, SessionLimits.Beginning(loaded, flat), inputs, events, last)
    ensures SessionLimits.Reachable(c, last)
    ensures initialCheck ==> SessionSteps.Truthful(c, last)
  {
    hide Loads, Processes, SessionRun.Initial, Verified;
    var s := SessionLimits.Beginning(loaded, flat);
    SessionLimits.LoadedIsInitial(c, flat, pieces, sha1, memoryPerTorrent, initialCheck, resume, loaded);
    SessionRun.InitialInv(c, s);
    ProcessesLeads(c, s, inputs, events, last);
  }

  /** The numbers are in range for a session. */
  ghost predicate CanOpen(loaded: Loaded)
    requires loaded.Ready?
  {
    && loaded.t.Valid() && Accounting(loaded.t, loaded.pieceSet, loaded.goodPieces, loaded.left)
    && loaded.t.totalSize < TWO_TO_THE_63 && loaded.t.pieceLength < TWO_TO_THE_32 - 9
    && loaded.t.totalPieces == PieceCount(loaded.t.totalSize, loaded.t.pieceLength) < TWO_TO_THE_32
    && loaded.maxActive >= 1
  }

  lemma OpenValid(c: Config, loaded: Loaded)
    requires loaded.Ready? && CanOpen(loaded) && c.t == loaded.t && c.maxActive == loaded.maxActive
    ensures c.Valid() && Accounting(c.t, loaded.pieceSet, loaded.goodPieces, loaded.left)
    ensures c.t.totalPieces == PieceCount(c.t.totalSize, c.t.pieceLength)
  {
  }

  lemma Started(c: Config, loaded: Loaded, flat: seq<byte>)
    requires c.Valid() && loaded.Ready? && loaded.t == c.t && |flat| == c.t.totalSize
    requires Accounting(c.t, loaded.pieceSet, loaded.goodPieces, loaded.left)
    ensures SessionSteps.Sound(c, SessionLimits.Beginning(loaded, flat))
  {
    SessionRun.InitialInv(c, SessionLimits.Beginning(loaded, flat));
  }

  ghost function EmptyState(): State {
    SessionState.State({}, 0, 0, None, map[], map[], [], map[])
  }
}
