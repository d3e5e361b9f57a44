# The download engine of Taipei-Torrent, verified

This Dafny project models the download engine of the BitTorrent client in `torrent/` and proves what it keeps,
over every run, every peer and every schedule. The protocol is BEP 3, sections "peer protocol" and "peer messages".
`dafny verify dfyconfig.toml` checks all of it.

**The session.** `SessionState` gives the state of one torrent session as a value and each operation as a function,
or as a relation where the program walks over a map or draws a random number. `SessionInvariant` proves that each
operation keeps the invariant, `SessionRun` puts the operations together into the events of the main loop, and
`SessionTheorems`, `SessionBlocks` and `SessionLimits` draw the conclusions for whole runs: the verified store, the
honest swarm, interest, accounting, memory, upload slots. `Session` holds the program itself, in the source's form: a
`TorrentSession` object with maps of `PeerState` and `ActivePiece` objects that its methods update in place, over a
store object and a choking policy object. Every method is proved against the operation of the same name, and
`DoTorrent`, the main loop, is proved to take its inputs one by one as exactly the events that `SessionInputs`
assigns to them; `SessionSteps` holds the bookkeeping between the two. `Over(flat, boxes)` is the abstract state of
the objects over a store with the given content, and the ghost parameter `s` of a method names the abstract state at
its start. `SessionLoad` is the accounting of `load`, and `SessionStart` puts loading, store and main loop together.
`SessionWire` gives the messages by their fields and bits, and the next four modules speak of them in these terms:
`SessionReplies` and `SessionDeliveries` tell for each message and event who is answered, asked, told, cancelled and
cut off; `SessionHeard` that what we hold of a peer is the replay of what it said; `SessionMessages` that what peers
are told is true and complete. `SessionResume` proves that the resume file brings a session back. `SessionWitness`
builds states that a session can get into, for every configuration; from them `SessionPanics` decides for which
torrents a message can panic, `SessionCounts` shows when the counts of blocks and the outstanding requests differ,
and `SessionFinish` that a download in an honest swarm can always be finished.

**Storage.** `Files` spreads a flat zero-padded array over files found by binary search; `RamCaches` is the
write-through cache of whole pieces on it, `CacheBudget` the provider that divides the budget, and `Stores` the view
the session has of either.

**Protocols and policies.** `Hashing` is the producer, the workers and the merger of `computeSums` as a transition
system; `Admission` is the start, done and queue protocol of `RunTorrents`; `PeerStream` is the queueing writer, the
framing and the reader; `Choker` is the classic choking policy.

**Support.** `Bitsets`, `PieceSizes`, `Geometry`, `Words`, `Bytes`, `Sorting`, `Arith`.

How the source's terms appear here:

- SHA-1 is an arbitrary function to 20 bytes, a field of `Torrent`.
- Time is a parameter of each operation, in nanoseconds. Random draws and map order are nondeterministic choices.
- A peer's writer channel is the sequence `sent` of everything given to `sendMessage`.
- Integers are unbounded. 32-bit fields of messages and 64-bit arithmetic that can wrap are written out; `Config.Valid`
  says that the pieces tile the torrent, that at least one piece may be active, and gives the ranges in which the other
  integers of the program do not overflow.
- A Go run-time panic is the outcome `Crash`.

Where the code falls short of what it seems to promise, the model follows the code and the exact condition is proved:

- The checks of PIECE and REQUEST compare with the full piece length, also for a last piece that is shorter
  (torrent/torrent.go:1078-1083, 1102-1107), and the slice of the reference hashes is not checked
  (torrent/pieces.go:104-106). `PanicsExactly` is the exact condition on a message, for any state: `GeneralMessage`
  panics if and only if it holds. On the torrent: a PIECE message can panic in a reachable state if and only if the last piece is
  shorter than the others (by one byte only when it is a multiple of 16 KiB) or has no hash (`WhenPiecePanics`), and a
  REQUEST if and only if there is a cache and the last piece is shorter (`WhenRequestPanics`).
- `load` compares the number of hashes with the number of pieces only in the initial check; without it a session may
  have pieces without a hash, which the first item covers.
- `requestBlockImp` shortens the last block of the last piece only, so the requests of any other piece tile it if and
  only if the piece length is a multiple of 16 KiB (`RequestsTileExactly`).
- A REQUEST returns before the flag for bitfields is cleared (torrent/torrent.go:1086, 1165-1167), so a bitfield is still
  accepted after one (`SessionHeard.After`).
- The store pads reads past its end with zeros, the cache on it panics there (`RamCache.ReadAt`).
- The count of a missing block is meant to be the number of peers that were asked for it. A time-out takes a request off
  the count but does not forget it, a connection that replaces another one of the same address leaves its requests in
  the counts, the endgame may ask the same peer again, and a piece that is started anew does not count requests left
  over from before. Each of these loses the agreement exactly when such a request is for a missing block, and nothing
  else does (`StepAgrees`, `RequestBlockAgrees`, `RecordBlockAgrees`); for every configuration there is a reachable
  state without it (`SometimesDiffer`).
- The memory limit is multiplied out in 64 bits. It is never exceeded (`LimitWithin`), but the number of pieces is the
  largest that fits if and only if the product fits into 63 bits, and no piece at all can be downloaded if and only if
  the product wraps to minus one piece or less (`LimitIsLargest`, for piece lengths below 2^62).

## Model

| member | source | states |
|---|---|---|
| `Session.TorrentSession.DoTorrent` | torrent/torrent.go:598-735 | for any inputs of connected peers the objects of the session take them one after the other as exactly the events of the transition system; the program panics if and only if some input is a message that panics in the state the earlier ones led to; verified content stays verified, and the calls of the choking policy go on as one run |
| `SessionInputs.ProcessesLeads` | torrent/torrent.go:598-735 | a run of the main loop over any inputs is a run of the transition system with at most one event for each input, and what was verified stays verified |
| `SessionInputs.ConnectionGreeted` | torrent/torrent.go:498-507 | a new peer is sent the extension handshake if it supports extensions, else a bitfield of exactly the pieces that we have |
| `SessionInputs.InputsTaken` | torrent/torrent.go:598-735 | a tick leaves min(4, interested) peers interested and unchoked, silent peers and ended connections are removed, a keep-alive is an empty message, an empty message changes nothing, and any other is handled as it is |
| `SessionStart.RunTorrent` | torrent/torrent.go:214-735 | from loading to the end of the run: what is loaded is what `Load` makes of the files and options; a session that is opened begins over those files with what was loaded and takes the first inputs as exactly their events; it panics if and only if an input is left, and then on the next one in the state reached |
| `SessionStart.RunIsSound` | torrent/torrent.go:214-735 | whatever such a run was given, also when its last input panics, the session is in a reachable state, and after an initial check every piece it has is stored with the right hash |
| `SessionStart.Open` | torrent/torrent.go:564-572 | a session of a loaded torrent begins with exactly the pieces and counters of load, the content of the files, no peers, nothing active and an unused choking policy |
| `SessionStart.OpenStore` | torrent/torrent.go:570-572 | with a provider the store is an empty new cache over the files, which has joined the provider and shares its budget, else the files themselves |
| `SessionTheorems.VerifiedRun` | torrent/torrent.go:872-904 | in every state that any events lead to, each piece we have is stored with content whose SHA-1 is the reference hash, if that held at the start |
| `SessionTheorems.StoreChanges` | torrent/torrent.go:886-895 | an event changes the stored content and the set of pieces only by completing a piece with the right hash, and then by exactly that piece |
| `SessionTheorems.VerifiedStep` | torrent/torrent.go:872-904 | one event keeps the invariant and the verified store |
| `SessionBlocks.FinishedDownload` | torrent/torrent.go:801-899 | from an empty start in an honest swarm, a run with nothing left has stored exactly the true content and counted every piece |
| `SessionFinish.NeverStuck` | torrent/torrent.go:598-735 | however an honest download from nothing has gone so far, an honest continuation stores exactly the true content, if requests tile the pieces |
| `SessionFinish.CanDownload` | torrent/torrent.go:598-735 | every torrent whose requests tile its pieces and whose hashes are those of some content has an honest run from nothing that stores exactly this content, and in which each block comes from a peer that was sent a REQUEST for exactly this block, not cancelled since |
| `SessionFinish.CanFinish` | torrent/torrent.go:765-939 | from every state with right blocks only, whatever the peers, counts and active pieces, honest events lead to a state with nothing left |
| `SessionFinish.PieceFinishes` | torrent/torrent.go:872-939 | the missing blocks of an active piece can arrive in turn until exactly that piece is stored, and no other piece is started; if it is the only active one and this peer was asked for all that is outstanding, each block was asked for before it comes |
| `SessionBlocks.HonestRun` | torrent/torrent.go:843-899 | in an honest swarm every block that is here and every stored piece holds the true bytes, whatever the order of requests, duplicates, chokes and time-outs |
| `SessionBlocks.CompletedPieceIsGood` | torrent/torrent.go:886-894 | in an honest swarm a completed piece always passes the hash check |
| `SessionBlocks.RequestsTileExactly` | torrent/torrent.go:843-856 | the block requests cover a piece exactly once if and only if it is the last piece or the piece length is a multiple of 16 KiB |
| `SessionBlocks.BlocksStayHere` | torrent/torrent.go:941-977 | no event but the arrival of a block takes back a block that is here, or changes its bytes |
| `SessionBlocks.DeliveryMarks` | torrent/torrent.go:1092-1118 | an accepted block changes its own piece only; a piece that is completed is active no longer or starts afresh |
| `SessionMessages.OnlyTruthIsTold` | torrent/torrent.go:831-934 | in every reachable state, of all messages given to peers: each PIECE carries the stored bytes of a piece we have, HAVE and BITFIELD name only pieces we have, each REQUEST and CANCEL starts in its piece and ends there too if requests tile the pieces |
| `SessionMessages.RequestsAreOnWire` | torrent/torrent.go:843-870 | in every reachable state each block that we remember to have asked a peer for was asked for in a message to it, with this piece, this begin and the full length, and was not cancelled since |
| `SessionMessages.PiecesAreTold` | torrent/torrent.go:921-934 | in every reachable state a peer that was ever sent our bitfield was told, by bitfield or HAVE, of every piece that we have and it lacks |
| `SessionMessages.StepTrue` | torrent/torrent.go:598-735 | each event adds only true messages, and what was true stays true when a piece is stored |
| `SessionMessages.PieceTrue` | torrent/torrent.go:1312-1328 | an answer to a REQUEST carries the bytes of the piece from the given offset, and zeros past the end of a short last piece |
| `SessionReplies.WhenClosed` | torrent/torrent.go:1005-1173 | a message costs its sender the connection exactly if it is not proper: of wrong length, out of range, of a piece we lack, late, malformed, unexpected, too large or unknown, each told by the fields and bits of the message |
| `SessionReplies.RequestAnswered` | torrent/torrent.go:1064-1087 | a request for a range of a piece that we have is answered, unless the peer is choked, by exactly one PIECE message with this piece, this begin and exactly these bytes of the piece, and nothing else happens |
| `SessionReplies.RequestTaken` | torrent/torrent.go:1312-1328 | such a request never panics and can always be handled |
| `SessionReplies.HaveHeard` | torrent/torrent.go:1041-1053 | a HAVE adds exactly its piece to those of the peer, and INTERESTED is sent exactly if we lack the piece and were not interested |
| `SessionReplies.BitfieldHeard` | torrent/torrent.go:1054-1063 | after a BITFIELD the peer has exactly the pieces whose bits are set, high bit first, and is told whether it has one that we lack, if that is new |
| `SessionReplies.ChokeHeard` | torrent/torrent.go:941-957 | after a CHOKE no request is outstanding and each one is taken off its count, unless its block is here or its count is zero |
| `SessionReplies.UnchokeHeard` | torrent/torrent.go:1015-1026 | after an UNCHOKE the peer is asked twice, as the state allows |
| `SessionReplies.RequestLaw` | torrent/torrent.go:765-870 | each request is one REQUEST on the wire for the block that is counted and remembered: one nobody was asked for, else the first of a new piece, else a missing one that fewest were asked for; nothing if too many pieces are active, and NOT_INTERESTED if there is nothing to ask |
| `SessionReplies.InterestHeard` | torrent/torrent.go:1027-1040 | INTERESTED and NOT_INTERESTED set the flag of the sender, and of the others only choking changes, each peer being told exactly when it does |
| `SessionReplies.Unanswered` | torrent/torrent.go:1088-1154 | a CANCEL, a PORT and a block of a piece that we have change nothing but that no bitfield is welcome any more |
| `SessionReplies.ExtensionHeard` | torrent/torrent.go:1155-1163 | an extension message is answered by one bitfield, whose bits are exactly the pieces that we have |
| `SessionReplies.ConnectionEnds` | torrent/torrent.go:509-518 | when a connection ends, is silent for too long or is closed for a message, its peer is removed, its requests are taken off the counts, and nothing else changes |
| `SessionReplies.Connects` | torrent/torrent.go:443-507 | a connection is turned away exactly if it is our own, of a peer that is known, or beyond sixty; otherwise the peer is new, has named nothing, is choked, and was sent the greeting only |
| `SessionReplies.KeptAlive` | torrent/torrent.go:716-728 | exactly the requests older than thirty seconds are taken off the counts, and an empty message is sent |
| `SessionDeliveries.BlockHeard` | torrent/torrent.go:1113-1118 | an accepted block is written over the bytes at its place and marked; the last one of a piece stores it if the hash is right, else the piece is dropped and the connection of the sender closed; each other peer is sent a CANCEL exactly if it was asked and more than one was, and a HAVE exactly if a piece was stored that it lacks; one request follows |
| `SessionDeliveries.NewPieceIsTold` | torrent/torrent.go:921-934 | whatever event brings a new piece, each connected peer that lacks it is sent exactly one HAVE that names it, and no other peer is sent one |
| `SessionDeliveries.OthersAreCancelled` | torrent/torrent.go:872-891 | if the counts agree with the requests, a block from a peer that was asked for it cancels every other request for it, by a CANCEL with its piece, begin and length, and no request for it is left |
| `SessionDeliveries.PanicsExactly` | torrent/torrent.go:1064-1163 | a message panics exactly if it is proper and a block outside a piece being downloaded, the last block of a piece without a hash, a cached read past the end of a piece, or an empty extension message |
| `SessionHeard.PeersAreAsTheySaid` | torrent/torrent.go:1005-1173 | from its connection on, the pieces and flags that we hold of a peer are the replay of its messages: the last bitfield and every HAVE after it, the last of each pair of signals, and a bitfield welcome only until another message |
| `SessionHeard.ConnectionReplayed` | torrent/torrent.go:598-735 | over any events in which a connection lasts, what we hold of the peer changes by its own messages only, in their order |
| `SessionWire.BlockWired` | torrent/torrent.go:843-868 | a request for a block carries its piece, its begin and its length in the three fields |
| `SessionWire.BitfieldRead` | torrent/bitset.go:28-38 | a payload is accepted exactly if it has one bit for each piece and zeros after them, and stands for the pieces whose bits are set, high bit first |
| `SessionWire.BitfieldWired` | torrent/peer.go:157-162 | the bitfield that is sent has exactly the bits of the pieces that we have |
| `SessionResume.ResumeRestores` | torrent/torrent.go:283-315 | a session that is quit after a new piece and loaded with its resume file over the same files has exactly the pieces and counters it had, and its store is verified again if it was at the start |
| `SessionResume.RunUpToDate` | torrent/torrent.go:904-907 | at every moment of a run the resume file, once written, names exactly the pieces held |
| `SessionLimits.CountersTell` | torrent/torrent.go:886-899 | in every reachable state goodPieces is the number of pieces held, Left plus the bytes held is the size of the torrent, active pieces are not held, and storing one does not take Left below zero |
| `SessionLimits.NoUnderflow` | torrent/torrent.go:896 | the unsigned subtraction from Left is exact |
| `SessionLimits.NeverUnderInterested` | torrent/torrent.go:1041-1063 | in every reachable state we are interested in each peer that has a piece we lack, and the last signal sent to it says so |
| `SessionLimits.UploadSlots` | torrent/torrent.go:737-763 | in every reachable state at most four peers are interested and unchoked, CHOKE and UNCHOKE alternate, and the last one sent is the flag |
| `SessionLimits.CacheNeverInTheWay` | torrent/cache.go:144-155 | in every reachable state cached pieces are held pieces equal to the stored ones, so no verified piece meets the early return of the cache |
| `SessionLimits.DownloadsBounded` | torrent/torrent.go:779-804 | in every reachable state active pieces are at most maxActivePieces, incomplete, of the right sizes, and their buffers fit into the memory limit or are one piece |
| `SessionLimits.MemoryBounded` | torrent/torrent.go:262-272 | buffers of all active pieces together: at most the memory limit, or one piece length, for every limit that load may set |
| `SessionLimits.EndgameFindsBlock` | torrent/torrent.go:90-101 | every active piece has a block to ask for in endgame mode |
| `SessionLimits.LoadedIsInitial` | torrent/torrent.go:214-331 | what load returns is a state the session can start from, verified after an initial check |
| `SessionRun.RunKeeps` | torrent/torrent.go:598-735 | the invariant holds in every state that any events lead to |
| `SessionRun.StepKeeps` | torrent/torrent.go:598-735 | every event of the main loop keeps the invariant |
| `SessionRun.EffectKeeps` | torrent/torrent.go:1005-1170 | every message that is handled keeps the invariant |
| `SessionRun.PeerInterestKeeps` | torrent/torrent.go:1027-1040 | after INTERESTED or NOT_INTERESTED exactly min(4, interested) peers are interested and unchoked |
| `SessionRun.EffectFrame` | torrent/torrent.go:1005-1170 | no message but a block of a piece we lack touches the store or the set of pieces |
| `SessionRun.InitialInv` | torrent/torrent.go:214-331 | a loaded session satisfies the invariant |
| `SessionRun.ReachesOn` | torrent/torrent.go:598-735 | runs compose |
| `SessionInvariant.RequestBlockKeeps` | torrent/torrent.go:765-805 | whatever the start piece and map order, RequestBlock keeps counts, memory bound, interest and signals |
| `SessionInvariant.NothingLeftToAsk` | torrent/torrent.go:788-799 | interest is given up only when the peer has no piece we lack |
| `SessionInvariant.RequestBlockFrame` | torrent/torrent.go:765-805 | RequestBlock leaves the store, the pieces, the counters and all other peers alone |
| `SessionInvariant.RecordBlockKeeps` | torrent/torrent.go:872-939 | recording a block keeps the invariant whether it completes a piece, a bad piece, or nothing |
| `SessionInvariant.StoredAccounting` | torrent/torrent.go:895-898 | one more piece: Left does not underflow and the counters still tell the truth |
| `SessionInvariant.BoxesAfterWrite` | torrent/torrent.go:895 | after a write every cached piece equals its slice of the store |
| `SessionInvariant.ForgottenKeeps` | torrent/torrent.go:947-964 | forgetting requests never takes a count below zero nor a received block back |
| `SessionInvariant.DoChokeKeeps` | torrent/torrent.go:941-957 | being choked keeps the invariant |
| `SessionInvariant.ClosePeerKeeps` | torrent/torrent.go:509-518 | closing a connection keeps the invariant |
| `SessionInvariant.ChokePeersKeeps` | torrent/torrent.go:737-763 | right after choking exactly min(4, interested) peers are interested and unchoked |
| `SessionInvariant.SetChokeKeepsSignals` | torrent/peer.go:133-143 | the choke flag is what the peer was last told, and it is told only changes |
| `SessionInvariant.SetInterestedKeepsSignals` | torrent/peer.go:145-155 | the interest flag is what the peer was last told, and it is told only changes |
| `Session.TorrentSession.constructor` | torrent/torrent.go:149-195 | a session starts with no peers and no active pieces over a given store |
| `Session.TorrentSession.RequestBlock` | torrent/torrent.go:765-805 | on the objects: a free block of an active piece, else a new piece, else a shared block, else no interest, and nothing else changes |
| `Session.TorrentSession.RequestActive` | torrent/torrent.go:770-777 | a block is asked for if any active piece the peer has allows one, in any map order; otherwise nothing changes |
| `Session.TorrentSession.ChoosePiece` | torrent/torrent.go:807-815 | an unclaimed piece the peer has if there is one, for every random start |
| `Session.TorrentSession.CheckRange` | torrent/torrent.go:819-829 | the first unclaimed piece of the range that the peer has, or none |
| `Session.TorrentSession.RequestBlock2` | torrent/torrent.go:831-840 | exactly the chosen block is counted and asked for |
| `Session.TorrentSession.RequestBlockImp` | torrent/torrent.go:843-870 | one message more, whose fields are the piece, the begin and the length of the block, as REQUEST or CANCEL, and the request for exactly this block remembered or forgotten |
| `Session.TorrentSession.StartPiece` | torrent/torrent.go:801-804 | a blank active piece of the right sizes, whose first block is asked for |
| `Session.TorrentSession.RecordBlock` | torrent/torrent.go:872-939 | on the objects: the block marked, others cancelled, and a completed piece stored, counted and announced, or thrown away and its sender's connection closed; panics exactly when it completes a piece without a hash |
| `Session.TorrentSession.AnswerBlock` | torrent/torrent.go:872-892 | the sender's request is dropped and, if more than one peer was asked, every other one that has it is cancelled |
| `Session.TorrentSession.CancelOthers` | torrent/torrent.go:882-891 | exactly the other peers with the request get a cancel, in any map order |
| `Session.TorrentSession.FinishPiece` | torrent/torrent.go:886-934 | a complete piece is kept if and only if its hash is right; if it is wrong the sender's connection is closed; panics exactly without a hash |
| `Session.TorrentSession.StorePiece` | torrent/torrent.go:901-934 | written through to the store, counted, saved in the resume file if one is kept, and announced to exactly the peers that lack it |
| `Session.TorrentSession.WriteThrough` | torrent/torrent.go:895 | the content reaches the underlying store in every case, and the cache keeps only true pieces |
| `Session.TorrentSession.AnnouncePiece` | torrent/torrent.go:921-934 | exactly the peers that lack the piece are sent one message more, a HAVE whose field is the piece |
| `Session.TorrentSession.RemoveRequests` | torrent/torrent.go:947-957 | every outstanding request is taken off its count once, in any map order |
| `Session.TorrentSession.RemoveRequest` | torrent/torrent.go:959-964 | one request is taken off the count of its block, never below zero and never off a received block |
| `Session.TorrentSession.DoCheckRequests` | torrent/torrent.go:966-977 | exactly the requests older than 30 seconds are taken off the counts, and stay remembered |
| `Session.TorrentSession.DoChoke` | torrent/torrent.go:941-945 | choked: flag set, requests forgotten |
| `Session.TorrentSession.ChokePeers` | torrent/torrent.go:737-763 | the policy is called once and ranks exactly the interested peers, each once; the first four of its ranking are unchoked and the others choked; no interested peer that is choked is faster than one of the first three |
| `Session.TorrentSession.ChokeOrder` | torrent/torrent.go:738-750 | one call of the policy, over the interested peers with their rates; the first four of its ranking are to be unchoked |
| `Session.TorrentSession.IsInteresting` | torrent/torrent.go:1334-1341 | true if and only if the peer has a piece we lack |
| `Session.TorrentSession.CheckInteresting` | torrent/torrent.go:1330-1332 | the peer is told what isInteresting says, if that is new |
| `Session.TorrentSession.SendRequest` | torrent/torrent.go:1312-1328 | a choked peer gets nothing, any other one the bytes of the store; panics exactly when a cached read passes the end of the last piece |
| `Session.TorrentSession.CheckOurs` | torrent/torrent.go:1072-1083 | no error exactly for 13 bytes, a piece that we have, a begin below the piece length and an end not above it; else the first failing check of the source |
| `Session.TorrentSession.CheckPieceBlock` | torrent/torrent.go:1092-1112 | the checks of PIECE, in order; none for a piece we have |
| `Session.TorrentSession.HandleChoke` | torrent/torrent.go:1009-1014 | CHOKE: length error or the effect of being choked |
| `Session.TorrentSession.HandleUnchoke` | torrent/torrent.go:1015-1026 | UNCHOKE: length error, or two further requests |
| `Session.TorrentSession.HandleInterest` | torrent/torrent.go:1027-1040 | INTERESTED and NOT_INTERESTED: length error, or the flag and a new choice of upload slots |
| `Session.TorrentSession.HandleHave` | torrent/torrent.go:1041-1053 | HAVE: length or range error, or the piece added and interest raised |
| `Session.TorrentSession.HandleBitfield` | torrent/torrent.go:1054-1063 | BITFIELD: accepted exactly if it is welcome and has one bit for each piece and zeros after them; then the peer has exactly the pieces whose bits are set, else its pieces stay as they are |
| `Session.TorrentSession.DecodeBitfield` | torrent/torrent.go:1058-1062 | nothing exactly when the payload is malformed, else the set it stands for |
| `Session.TorrentSession.HandleRequest` | torrent/torrent.go:1064-1087 | REQUEST: the first failing check, or the answer, or the panic past the last piece |
| `Session.TorrentSession.HandlePiece` | torrent/torrent.go:1088-1118 | PIECE: the first failing check, nothing for a piece we have, else the block received |
| `Session.TorrentSession.ReceiveBlock` | torrent/torrent.go:1113-1118 | the block copied, recorded and followed by one request; panics exactly when it starts past the buffer of a short last piece, has no block, or completes a piece without a hash |
| `Session.TorrentSession.HandleCancel` | torrent/torrent.go:1119-1147 | CANCEL: the first failing check, or no effect on the modelled state |
| `Session.TorrentSession.HandleExtension` | torrent/torrent.go:1155-1163 | EXTENSION: a bitfield in reply; panics on a message of one byte |
| `Session.TorrentSession.GeneralMessage` | torrent/torrent.go:1005-1173 | error, panic or effect, each exactly when the specification says so |
| `Session.TorrentSession.OnMessage` | torrent/torrent.go:979-993 | a connection is closed exactly when it ended or failed; a step of the transition system, unless the message panics |
| `Session.TorrentSession.ClosePeer` | torrent/torrent.go:509-518 | requests taken off the counts and the peer forgotten |
| `Session.TorrentSession.OnConnect` | torrent/torrent.go:443-507 | own, known and surplus connections are turned away, any other peer is added and greeted; a step of the transition system |
| `Session.TorrentSession.OnKeepAlive` | torrent/torrent.go:716-728 | timed-out requests off the counts and a keep-alive queued; a step of the transition system |
| `Session.TorrentSession.OnExpire` | torrent/torrent.go:711-715 | a silent peer is closed; a step of the transition system |
| `Session.TorrentSession.OnChokeTick` | torrent/torrent.go:603-604 | a choke tick is a step of the transition system |
| `Session.TorrentSession.HandleInput` | torrent/torrent.go:598-735 | one turn of the main loop is exactly the event of its input, or nothing if the address is not connected; it panics if and only if the input is a message that panics in this state |
| `SessionSteps.ForgottenMore` | torrent/torrent.go:948-955 | forgetting requests one by one is forgetting them together |
| `SessionSteps.KeyUnpacks` | torrent/torrent.go:948-952 | shifting and masking a request key gives back its piece and block |
| `SessionSteps.PackInjective` | torrent/torrent.go:859 | different blocks have different request keys |
| `SessionSteps.SenderAnswered` | torrent/torrent.go:872-891 | unless more than one peer was asked, only the sender's request is touched |
| `SessionSteps.FirstChosen` | torrent/torrent.go:749-763 | unchoking the first four of any ranking of the interested peers is a correct choice of upload slots |
| `SessionSteps.HandledIsStep` | torrent/torrent.go:687-696 | a handled message, and the close after a failed one, is a step of the transition system |
| `SessionPanics.WhenPiecePanics` | torrent/torrent.go:1102-1115 | a PIECE message can panic in a reachable state if and only if the last piece is short or has no hash |
| `SessionPanics.ShortPiecePanics` | torrent/torrent.go:1102-1115 | with a short last piece there is a reachable state in which it is being downloaded and a block that passes all checks starts outside it |
| `SessionPanics.LastBlockPanics` | torrent/pieces.go:104-106 | from any reachable state in which a piece without a hash is being downloaded its blocks can arrive until the last one panics |
| `SessionPanics.WhenRequestPanics` | torrent/torrent.go:1078-1086 | a REQUEST message can panic in a reachable state if and only if there is a cache and the last piece is shorter than the others |
| `SessionPanics.ShortReadPanics` | torrent/cache.go:112-142 | with a cache, a short last piece and every piece here, an unchoked peer can ask past the end |
| `SessionPanics.WhenMessagesPanic` | torrent/torrent.go:1005-1173 | for every message identifier, exactly for which torrents and stores such a message can panic in a reachable state: EXTENSION always, PIECE and REQUEST under the conditions above, no other one ever |
| `SessionPanics.EmptyExtensionPanics` | torrent/torrent.go:1155-1158 | for every configuration a state is reachable in which an extension message without payload panics |
| `SessionWitness.RequestPossible` | torrent/torrent.go:765-805 | in every state RequestBlock has an outcome |
| `SessionWitness.Downloading` | torrent/torrent.go:765-805 | for every configuration and piece there is a reachable state in which the piece is being downloaded and its first block was asked for at a given time |
| `SessionWitness.DownloadingByBitfield` | torrent/torrent.go:1015-1063 | for every configuration and set of pieces a new connection, its bitfield of exactly these pieces and an UNCHOKE lead to the download of any of them |
| `SessionCounts.StepAgrees` | torrent/torrent.go:598-735 | an event that leads to no request ends the agreement of counts and outstanding requests if and only if it is a time-out of a missing block, or a connection in the place of a peer that was asked for one |
| `SessionCounts.RequestBlockAgrees` | torrent/torrent.go:765-805 | RequestBlock ends the agreement if and only if it asks the same peer again for a block or starts a piece with requests left over |
| `SessionCounts.RecordBlockAgrees` | torrent/torrent.go:872-939 | recording a block keeps the agreement, whoever sent it and whatever becomes of the piece |
| `SessionCounts.DeliveryAgrees` | torrent/torrent.go:1113-1118 | a delivery keeps the agreement up to the request that follows it, which alone decides |
| `SessionCounts.UnchokeAgrees` | torrent/torrent.go:1015-1026 | of the two requests after an UNCHOKE each one decides |
| `SessionCounts.TimeOutAgrees` | torrent/torrent.go:966-977 | time-outs keep the agreement if and only if none of them is for a missing block of an active piece |
| `SessionCounts.ConnectAgrees` | torrent/torrent.go:443-507 | a new connection keeps the agreement if and only if it is turned away, is of a new address, or the peer it replaces was asked for no missing block |
| `SessionCounts.RequestedAgrees` | torrent/torrent.go:831-870 | a request for a block of an active piece keeps the agreement if and only if the peer was not asked for it before |
| `SessionCounts.StartedAgrees` | torrent/torrent.go:801-804 | starting a piece keeps the agreement if and only if no request for it was left over |
| `SessionCounts.ChokeAgrees` | torrent/torrent.go:941-957 | being choked keeps the agreement |
| `SessionCounts.CloseAgrees` | torrent/torrent.go:509-518 | closing a connection keeps the agreement |
| `SessionCounts.SometimesDiffer` | torrent/torrent.go:966-977 | for every configuration there is a reachable state in which a count is not the number of outstanding requests |
| `SessionSteps.LeadsVerified` | torrent/torrent.go:872-904 | a verified store stays verified over any events |
| `SessionState.Unpack` | torrent/torrent.go:859 | a packed block gives back its piece and its offset |
| `Peers.ActivePiece.constructor` | torrent/torrent.go:801-803 | no block asked for, a zeroed buffer |
| `Peers.ActivePiece.ChooseBlockToDownload` | torrent/torrent.go:73-78 | the normal or the endgame choice |
| `Peers.ActivePiece.ChooseBlockToDownloadNormal` | torrent/torrent.go:80-88 | the first block nobody was asked for, counted once |
| `Peers.ActivePiece.ChooseBlockToDownloadEndgame` | torrent/torrent.go:90-101 | the first missing block that fewest were asked for, counted once; none if and only if no block is missing |
| `Peers.ActivePiece.RecordBlock` | torrent/torrent.go:103-107 | the count before, and the block marked |
| `Peers.ActivePiece.IsComplete` | torrent/torrent.go:109-116 | true if and only if every block is here |
| `Peers.ActivePiece.CopyIn` | torrent/torrent.go:1115 | the bytes that fit are copied |
| `Peers.ActivePiece.Forget` | torrent/torrent.go:959-964 | a positive count goes down by one, anything else stays |
| `Peers.PeerState.constructor` | torrent/peer.go:92-101 | choked both ways, not interested, nothing known |
| `Peers.PeerState.SetChoke` | torrent/peer.go:133-143 | flag and message change together, only on a change |
| `Peers.PeerState.SetInterested` | torrent/peer.go:145-155 | flag and message change together, only on a change |
| `Peers.PeerState.SendBitfield` | torrent/peer.go:157-162 | the bitfield message of the pieces held |
| `Peers.PeerState.KeepAlive` | torrent/peer.go:197-199 | an empty message |
| `Peers.PeerState.Close` | torrent/peer.go:103-107 | the connection is closed and nothing else changes |
| `SessionLoad.Load` | torrent/torrent.go:232-331 | exactly which sizes and options fail and how; on success goodPieces and Left are true in unsigned arithmetic, the pieces are exactly those with the right hash after an initial check, else exactly those of the resume file or none, and the limit is that of the memory |
| `SessionLoad.BytesLeft` | torrent/torrent.go:310-315 | the closed form of load equals the sum of the lengths of the missing pieces |
| `SessionLoad.MissingBytes` | torrent/torrent.go:310-314 | neither unsigned operation of the closed form wraps |
| `SessionLoad.MaxActivePieces` | torrent/torrent.go:262-272 | so many full pieces never take more than the memory limit unless it is one piece, and they are the most that fit if the number of bytes fits into 63 bits |
| `SessionLoad.LimitWithin` | torrent/torrent.go:262-272 | for every memory limit, also one that wraps in 64 bits, the number of pieces is at most one or fits into the limit |
| `SessionLoad.LimitIsLargest` | torrent/torrent.go:262-272 | the number of pieces is the largest that fits if and only if the bytes fit into 63 bits, and below one if and only if they wrap to minus one piece or less |
| `SessionLoad.Sizes` | torrent/torrent.go:254-260 | piece count and length of the last piece |
| `SessionLoad.Resume` | torrent/torrent.go:289-300 | a resume file is refused exactly if malformed, else its pieces are counted |
| `SessionLoad.Present` | torrent/torrent.go:274-309 | which pieces are there: by hashing, by resume file, or none |
| `Geometry.Tiling` | torrent/torrent.go:254-260 | the pieces tile the content and the last one ends with it |
| `Geometry.PieceCountRoundsUp` | torrent/pieces.go:13-14 | rounding up the piece count gives the count of load |
| `Geometry.Torrent.HeldPlusMissing` | torrent/torrent.go:310-315 | bytes held plus bytes missing is the size of the torrent |
| `Geometry.Torrent.SumMissingClosedForm` | torrent/torrent.go:310-314 | bad pieces times piece length, less what the last piece is short, is the sum of the missing lengths |
| `Geometry.Torrent.SumAtMost` | torrent/torrent.go:262-272 | a set of pieces is at most its number times the piece length |
| `Geometry.Torrent.SliceAfterWrite` | torrent/files.go:126-161 | writing one piece changes that piece only |
| `Geometry.Torrent.BlockBounds` | torrent/torrent.go:801-802 | the block count is the rounded-up quotient |
| `Geometry.Torrent.SlicesDetermine` | torrent/torrent.go:333-338 | two contents with the same pieces are equal |
| `Stores.Store.ReadAt` | torrent/torrent.go:1312-1325 | a range of a piece, zero-padded without a cache; with a cache it panics exactly past the end of the torrent, and only that piece is added |
| `Stores.Store.ReadMessage` | torrent/torrent.go:1315-1325 | header and stored bytes in one message |
| `Stores.Store.WritePiece` | torrent/torrent.go:895 | the slice of the piece replaced, unless it is cached already |
| `Stores.BoxIsPiece` | torrent/cache.go:43-52 | the boxes of the cache are the pieces of the torrent |
| `Files.RamFile.ReadAt` | torrent/ramfiles.go:29-32 | copies what the file has from the offset on |
| `Files.RamFile.WriteAt` | torrent/ramfiles.go:34-37 | overwrites what fits, and nothing else |
| `Files.FileStore.constructor` | torrent/files.go:47-77 | offsets are the prefix sums of the lengths; the content is all zeros |
| `Files.FileStore.Find` | torrent/files.go:79-94 | the last file that starts at or before the offset, also among empty files |
| `Files.FileStore.ReadAt` | torrent/files.go:96-124 | the flat slice with zeros past the end, and how much of it came from files |
| `Files.FileStore.WritePiece` | torrent/files.go:126-161 | exactly the slice of the piece changes; an error if and only if a byte past the end is not zero |
| `Files.FileStore.WriteFlat` | torrent/files.go:126-161 | the same at any offset |
| `Files.OkReadsBack` | torrent/files.go:126-161 | a write succeeds if and only if what was written reads back |
| `Bytes.ReadBack` | torrent/files.go:96-161 | written data reads back if and only if nothing but zeros was past the end |
| `RamCaches.RamCache.constructor` | torrent/cache.go:43-47 | an empty cache of one box per piece |
| `RamCaches.RamCache.ReadAt` | torrent/cache.go:112-142 | for any hits, misses and evictions the bytes of the store; fails exactly past the end of the torrent; exactly the boxes of the range are touched at the time of the call; terminates |
| `RamCaches.RamCache.GetBox` | torrent/cache.go:119-132 | the box from the cache or from the store; its time is that of the call, on a hit and on a miss, and no other time changes |
| `RamCaches.RamCache.WritePiece` | torrent/cache.go:144-155 | a cached piece stops the write, any other is cached and written through |
| `RamCaches.RamCache.AddBox` | torrent/cache.go:157-162 | usage is the number of boxes, at most capacity, and no evicted box is newer than a kept one |
| `RamCaches.RamCache.RemoveBox` | torrent/cache.go:164-167 | one box less, counted |
| `RamCaches.RamCache.Trim` | torrent/cache.go:178-200 | exactly as many of the oldest boxes go as are over capacity |
| `RamCaches.RamCache.AccessTimes` | torrent/cache.go:183-190 | every box in use once, with its time |
| `RamCaches.OldestGo` | torrent/cache.go:191-199 | removing the first ones of the sorted list evicts no box newer than a kept one |
| `RamCaches.BoxAfterWrite` | torrent/cache.go:144-155 | writing one box leaves every other box equal to its slice |
| `CacheBudget.RamCacheProvider.Rebalance` | torrent/cache.go:55-79 | every cache gets its share and keeps exactly as many boxes as it had or as fit, the newest ones; together they keep the budget plus one piece for each cache raised from nothing, and use it but for less than one piece each |
| `CacheBudget.RamCacheProvider.NewCache` | torrent/cache.go:43-52 | a new cache joins and the budget is kept |
| `CacheBudget.RamCacheProvider.CacheClosed` | torrent/cache.go:81-84 | a closed cache leaves and the budget is kept |
| `CacheBudget.WithinBudget` | torrent/cache.go:60-76 | the capacities in bytes add up to at most the budget plus what was raised |
| `CacheBudget.BudgetIsUsed` | torrent/cache.go:60-76 | the capacities in bytes and one piece for each cache make up at least the budget, if no share exceeds 32 bits |
| `CacheBudget.AllotmentAtLeast` | torrent/cache.go:66-70 | one piece more than the allotment would exceed the share |
| `CacheBudget.AllottedAtMost` | torrent/cache.go:65-70 | floors never exceed the proportional shares |
| `CacheBudget.AllotmentBytes` | torrent/cache.go:66-70 | one cache holds at most its proportional share, or one piece |
| `Choker.ClassicChokePolicy.Choke` | torrent/choker.go:58-94 | one more call of the run of the policy: each call so far is a permutation with the three fastest first and then the optimist, who stays or is drawn anew |
| `Choker.ClassicChokePolicy.Rank` | torrent/choker.go:58-94 | a permutation with the three fastest first and then the optimist, who stays or is drawn anew |
| `Choker.ClassicChokePolicy.FindOptimist` | torrent/choker.go:96-103 | the first position of the optimist, or none |
| `Choker.CounterInRange` | torrent/choker.go:73-79 | over any run of calls the counter stays in 0..2 |
| `Choker.OptimistIsFourth` | torrent/choker.go:81-89 | with four or more candidates the fourth is the optimist on record |
| `Choker.Tenure` | torrent/choker.go:58-94 | an optimist that stays a candidate outside the top keeps the slot for exactly two further calls, and the third draws anew |
| `Sorting.Sort` | torrent/choker.go:59 | the candidates sorted, in place, by a permutation |
| `PeerStream.StreamRoundTrip` | torrent/peer.go:59-303 | the non-empty messages decoded on the other side are the first of those given to sendMessage, in order, and all of them if nothing was left in the queue and the connection held |
| `PeerStream.RunQueueingWriter` | torrent/peer.go:59-90 | for every choice of the select statement the output and what is left in the queue are the input, in order, and the output is as long as the choices say |
| `PeerStream.AnyPrefix` | torrent/peer.go:59-90 | every prefix of the input, the whole one included, is the output for some choices |
| `PeerStream.QueueingWriter.Enqueue` | torrent/peer.go:67-70 | the queue's keys stay tail..head-1 and the message is the newest |
| `PeerStream.QueueingWriter.Dequeue` | torrent/peer.go:79-82 | the oldest message goes and the keys stay tail..head-1 |
| `PeerStream.PeerWriter` | torrent/peer.go:237-268 | the wire is exactly the frames of the kept messages, cut where the connection breaks; complete if and only if nothing was cut |
| `PeerStream.Kept` | torrent/peer.go:241-252 | only keep-alives are dropped: the non-empty messages are all kept, in order |
| `PeerStream.KeptWhenSilent` | torrent/peer.go:241-252 | nothing is dropped if two minutes pass before each message |
| `PeerStream.DroppedWhenBusy` | torrent/peer.go:241-252 | every keep-alive is dropped within two minutes of a message that was written |
| `PeerStream.CutFrame` | torrent/peer.go:254-264 | a write that breaks within a frame leaves a prefix of the whole wire |
| `PeerStream.ReadsFrame` | torrent/peer.go:270-286 | reading a frame gives its message and leaves the rest |
| `PeerStream.ReadsPrefix` | torrent/peer.go:270-303 | from any prefix of the wire a prefix of the messages is read |
| `PeerStream.ReadsAll` | torrent/peer.go:270-303 | from the whole wire all messages are read |
| `PeerStream.PeerReader` | torrent/peer.go:291-303 | the reader goroutine forwards all messages up to the first error |
| `Bytes.Uint32RoundTrip` | torrent/peer.go:204-222 | decoding an encoded 32-bit integer gives it back |
| `Bytes.BytesRoundTrip` | torrent/peer.go:204-222 | encoding four decoded bytes gives them back |
| `Bytes.OrderOnWire` | torrent/peer.go:204-222 | 32-bit integers compare as the strings of their bytes on the wire do: the high byte comes first |
| `Hashing.EveryInterleaving` | torrent/pieces.go:54-97 | every interleaving of producer, workers and merger that ends has computed the in-order concatenation of the piece hashes |
| `Hashing.NeverStuck` | torrent/pieces.go:54-97 | a reachable state that is not final always has a goroutine that can move |
| `Hashing.StepKeeps` | torrent/pieces.go:54-97 | every move keeps the invariant and decreases the measure |
| `Hashing.MergedIsSequential` | torrent/pieces.go:77-83 | merging by index gives the sequential answer |
| `Hashing.ComputeSums` | torrent/pieces.go:54-84 | the program under any scheduler returns the sequential answer |
| `Hashing.CheckPieces` | torrent/pieces.go:11-35 | exactly the pieces whose stored content has the right hash are marked, and counted |
| `Hashing.CheckPiece` | torrent/pieces.go:99-114 | panics if and only if the torrent gives no hash for the piece; otherwise true if and only if the hash is the reference |
| `Hashing.CheckEqual` | torrent/pieces.go:37-44 | byte-wise equality |
| `Admission.NeverTooMany` | torrent/torrentLoop.go:59-142 | in every reachable state at most MaxActive torrents are in creation, waiting to start, running or reporting |
| `Admission.SendsNeverBlock` | torrent/torrentLoop.go:88-134 | whenever the main function sends a file the channel has room |
| `Admission.SubmittedInOrder` | torrent/torrentLoop.go:83-134 | the files sent are a prefix of the list, each once and in order, and the rest is queued |
| `Admission.NoSlotIdle` | torrent/torrentLoop.go:83-138 | as long as the program is not told to quit, no slot is idle in the main loop while a file waits, and the loop does not end before every file was sent |
| `Admission.EveryFileIsSent` | torrent/torrentLoop.go:59-142 | with at least one slot, every run that is not told to quit has at most nine moves for each file and three more, and when nothing more can move every file was sent and the loop has ended; without a slot no file is ever sent |
| `Admission.StepKeeps` | torrent/torrentLoop.go:51-142 | every move of every goroutine keeps the invariant |
| `Bitsets.Bitset.constructor` | torrent/bitset.go:17-26 | the empty set, spare bits zero |
| `Bitsets.Bitset.FromBytes` | torrent/bitset.go:28-38 | nil exactly if the length or a spare bit is wrong, else the set of the payload |
| `Bitsets.Bitset.Set` | torrent/bitset.go:40-43 | one element more, spare bits still zero |
| `Bitsets.Bitset.Clear` | torrent/bitset.go:45-48 | one element less |
| `Bitsets.Bitset.IsSet` | torrent/bitset.go:50-53 | membership |
| `Bitsets.Bitset.AndNot` | torrent/bitset.go:69-77 | set difference, also with itself |
| `Bitsets.Bitset.ClearEnd` | torrent/bitset.go:79-83 | spare bits cleared, the others kept |
| `Bitsets.Bitset.FindNextSet` | torrent/bitset.go:93-101 | the least element from the index on, or -1 if there is none |
| `Bitsets.Bitset.FindNextClear` | torrent/bitset.go:103-110 | the least non-element from the index on, or -1 if there is none |
| `Bitsets.Bitset.Bytes` | torrent/bitset.go:112-114 | a payload that decodes to the same set |
| `Bitsets.DecodeEncode` | torrent/bitset.go:28-114 | decoding an encoded set gives it back |
| `Bitsets.EncodeDecode` | torrent/bitset.go:28-114 | a payload that is accepted is the encoding of its set |
| `Bitsets.OneSpareByte` | torrent/bitset.go:28-38 | one test of the last byte decides whether all spare bits are zero |
| `PieceSizes.ChoosePieceLength` | torrent/metainfo.go:323-334 | 16384 times a power of two, with fewer than 2048 pieces, and at least 1024 from 16 MiB on |
| `PieceSizes.RoundUpToPowerOfTwo` | torrent/metainfo.go:336-346 | the least power of two at least v for 1 <= v <= 2^63, and zero for all other words |
| `PieceSizes.FoldWidens` | torrent/metainfo.go:338-343 | each shift-or doubles the distance over which the top bit is smeared |
| `PieceSizes.PowerIsFixed` | torrent/metainfo.go:336-346 | rounding up leaves a power of two alone |
| `PieceSizes.ChosenIsFixed` | torrent/metainfo.go:323-346 | a chosen piece length is a fixed point of rounding up |

## Left out

- Session.TorrentSession.DoTorrent: inputs are keyed by address here and dropped once the peer is gone; the program keys them by peer object and would still handle a message that was read before the connection was closed. Quitting and the exit at a seed ratio are not inputs: a run may end after any of them.
- Session.TorrentSession.HandleInput: drops a message of a peer that was closed or replaced before, for the same reason.
- SessionFinish.CanFinish: blocks of the pieces that are active at the start of the continuation need not have been asked for, which the program does not check.
- Metadata exchange, magnet links, the extension handshake's contents and bencode: the session has its torrent from the start, and DoExtension is modelled only by its panic on an empty extension message.
- `Uploaded`, `Downloaded`, progress reports, the tracker and the DHT: statistics and foreign calls that no modelled decision reads.
- `HdCache`: the algorithm of `RamCache` again, with disk errors in the way.
- Failures of files and disks: reads and writes are those of the RAM file, complete and without error.
- Session.TorrentSession.RecordBlock: that a connection which the session closed itself comes to its end is not forced; the event that ends a connection may come at any time.
- Session.TorrentSession.HandleExtension: the extension table and the metadata that the handshake carries are not modelled, only the bitfield in reply and the panic on an empty message.
- Session.TorrentSession.OnConnect: recording our own addresses and handing the node to the DHT are not modelled.
- peer_requests: filled nowhere, since requests are answered at once; CANCEL therefore has no effect here.
- SessionTheorems.VerifiedRun: says nothing about pieces that a resume file claims to be present, since `load` trusts them unread; they are covered only by the accounting.
- IsEndValid: it tests the valid bits instead of the spare bits and is not used by the modelled code.
- `RunTorrents` ending only when every torrent is finished: its exit test looks at started sessions only, so the loop may end while a torrent is still in creation.
- Admission.NeverTooMany: quitting is modelled as the flag it sets, not as the message to each session.
- `Accumulator`: download rates are an arbitrary function of the peers at each call of the policy.
- CacheBudget.WithinBudget: floats are reals, and the order in which the map is walked is fixed for one call of rebalance.
- RamCaches.RamCache.ReadAt: access times are a parameter of each call; a rebalance of another session while a read is under way is not modelled.
- Aliasing between a cached box and the buffer of the piece that was written: neither is changed after the write.
- Session.TorrentSession.OnMessage: the state after a panic is not described, since the process ends.
- Session.TorrentSession.HandleUnchoke: the two requests that follow an UNCHOKE carry the same time.
- Peers' bitsets are sets of integers inside the session; `Bitsets` proves that the byte arrays refine such sets.
- SessionLoad.Load: opening files, names and the encoding check are not modelled, nor what fails there; the sizes are given by the store; a torrent without content, a negative piece length and a negative file length are outside it.
- SessionStart.RunTorrent: a session whose memory limit overflows to a negative number of pieces is not run; in the program it would never request a block.
- PeerStream.RunQueueingWriter: the writer goroutine's end when the connection breaks, which leaves the queueing writer waiting, is not modelled.
- Sorting.Sort: an insertion sort stands for the library's sort, of which only a sorted permutation is used.
- Piece hashing in computeSums reads each piece through the file store of the model; its read errors are not modelled.
