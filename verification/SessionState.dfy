/** The state of one torrent session as a value, and what each operation of the session may do to it.
    Where the program iterates over a map or draws a random number the operation is a relation. */
module SessionState {
  import opened Arith
  import opened Bytes
  import opened Geometry
  import Bitsets

  // Message identifiers of BEP 3, section "peer messages".
  const CHOKE: byte := 0
  const UNCHOKE: byte := 1
  const INTERESTED: byte := 2
  const NOT_INTERESTED: byte := 3
  const HAVE: byte := 4
  const BITFIELD: byte := 5
  const REQUEST: byte := 6
  const PIECE: byte := 7
  const CANCEL: byte := 8
  const PORT: byte := 9
  const EXTENSION: byte := 20

  const MAX_NUM_PEERS: nat := 60
  const MAX_BLOCK_LENGTH: nat := 131072
  const UPLOAD_SLOTS: nat := 4
  const REQUEST_TIMEOUT: int := 30_000_000_000  // nanoseconds
  const TWO_TO_THE_63: int := 0x8000_0000_0000_0000
  const TWO_TO_THE_64: int := 0x1_0000_0000_0000_0000

  /** What does not change while the session runs. `cached` tells if a RAM cache sits on the file store, `quickResume`
      if a resume file is kept. */
  datatype Config = Config(t: Torrent, maxActive: nat, ourId: string, cached: bool, quickResume: bool) {

    /** Piece and block numbers travel as 32-bit integers; sizes are 64-bit signed integers. */
    ghost predicate Valid() {
      && t.Valid()
      && t.totalPieces < TWO_TO_THE_32
      && t.pieceLength < TWO_TO_THE_32 - 9
      && t.totalSize < TWO_TO_THE_63
      && maxActive >= 1
    }
  }

  /** A piece being downloaded: how many peers were asked for each block (-1: the block is here). */
  datatype Active = Active(counts: seq<int>, buffer: seq<byte>)

  /** The network address that a peer is known by. */
  datatype Address = Address(text: string)

  datatype Peer = Peer(
    id: string,
    have: set<nat>,
    amChoking: bool,
    amInterested: bool,
    peerChoking: bool,
    peerInterested: bool,
    ourRequests: map<nat, int>,  // packed block -> time of the request
    canReceiveBitfield: bool,
    closed: bool,                // we have closed the connection; that it has ended is yet to be read
    sent: seq<seq<byte>>)        // everything given to sendMessage

  datatype State = State(
    pieceSet: set<nat>,
    goodPieces: nat,
    left: nat,
    saved: Option<seq<byte>>,     // what this run has written to the resume file last
    active: map<nat, Active>,
    peers: map<Address, Peer>,
    flat: seq<byte>,              // content of the underlying file store
    boxes: map<nat, seq<byte>>)   // pieces in the RAM cache

  // ---- Packed blocks and messages ----

  function Pack(piece: nat, begin: nat): nat {
    piece * TWO_TO_THE_32 + begin
  }

  function PieceOf(key: nat): nat {
    key / TWO_TO_THE_32
  }

  function BeginOf(key: nat): nat {
    key % TWO_TO_THE_32
  }

  lemma Unpack(piece: nat, begin: nat)
    requires begin < TWO_TO_THE_32
    ensures PieceOf(Pack(piece, begin)) == piece && BeginOf(Pack(piece, begin)) == begin
  {
    Quotient(Pack(piece, begin), piece, TWO_TO_THE_32, begin);
  }

  /** Go's uint32 conversion followed by the big-endian encoding. */
  function Wire(n: int): (b: seq<byte>)
    ensures |b| == 4
  {
    Uint32ToBytes(n % TWO_TO_THE_32)
  }

  function RequestLength(c: Config, piece: nat, block: nat): int
  {
    var left := c.t.lastPieceLength - block * STANDARD_BLOCK_LENGTH;
    if piece == c.t.totalPieces - 1 && left < STANDARD_BLOCK_LENGTH then left else STANDARD_BLOCK_LENGTH
  }

  function RequestMessage(c: Config, opcode: byte, piece: nat, block: nat): (m: seq<byte>)
    ensures |m| == 13
  {
    [opcode] + Wire(piece) + Wire(block * STANDARD_BLOCK_LENGTH) + Wire(RequestLength(c, piece, block))
  }

  function HaveMessage(piece: nat): (m: seq<byte>)
    ensures |m| == 5
  {
    [HAVE] + Wire(piece)
  }

  function BitfieldMessage(c: Config, pieces: set<nat>): (m: seq<byte>)
    ensures c.t.totalPieces >= 1 ==> |m| >= 2
  {
    [BITFIELD] + Bitsets.Encode(c.t.totalPieces, pieces)
  }

  function PieceMessage(piece: nat, begin: nat, data: seq<byte>): (m: seq<byte>)
    ensures |m| == 9 + |data|
  {
    [PIECE] + Wire(piece) + Wire(begin) + data
  }

  // ---- One peer ----

  function Send(p: Peer, message: seq<byte>): Peer {
    p.(sent := p.sent + [message])
  }

  function SetChoke(p: Peer, choke: bool): Peer {
    if choke != p.amChoking then Send(p.(amChoking := choke), [if choke then CHOKE else UNCHOKE]) else p
  }

  function SetInterested(p: Peer, interested: bool): Peer {
    if interested != p.amInterested
    then Send(p.(amInterested := interested), [if interested then INTERESTED else NOT_INTERESTED])
    else p
  }

  /** What a receiver knows after `sent`: the state set by the last of the two one-byte messages on and off. */
  ghost function Signal(sent: seq<seq<byte>>, on: byte, off: byte, initially: bool): bool {
    if sent == [] then initially
    else
      var m := sent[|sent| - 1];
      if m == [on] then true
      else if m == [off] then false
      else Signal(sent[..|sent| - 1], on, off, initially)
  }

  /** The two messages alternate: each one changes what the receiver knows. */
  ghost predicate Alternates(sent: seq<seq<byte>>, on: byte, off: byte, initially: bool) {
    sent == [] || (
      var before := sent[..|sent| - 1];
      var m := sent[|sent| - 1];
      && Alternates(before, on, off, initially)
      && (m == [on] ==> !Signal(before, on, off, initially))
      && (m == [off] ==> Signal(before, on, off, initially)))
  }

  // ---- Requesting blocks ----

  /** The first block of an active piece that nobody was asked for. */
  ghost predicate FreeBlock(counts: seq<int>, b: int) {
    0 <= b < |counts| && counts[b] == 0 && forall j | 0 <= j < b :: counts[j] != 0
  }

  /** The first of the missing blocks that fewest peers were asked for. */
  ghost predicate EndgameBlock(counts: seq<int>, b: int) {
    && 0 <= b < |counts| && counts[b] >= 0
    && (forall j | 0 <= j < |counts| && counts[j] >= 0 :: counts[b] <= counts[j])
    && (forall j | 0 <= j < b && counts[j] >= 0 :: counts[b] < counts[j])
  }

  ghost predicate NoFreeBlock(s: State, p: Peer) {
    forall k | k in s.active && k in p.have :: 0 !in s.active[k].counts
  }

  /** A piece the peer has, we lack, and nobody is downloading. */
  ghost predicate Unclaimed(s: State, p: Peer, piece: nat) {
    piece in p.have && piece !in s.pieceSet && piece !in s.active
  }

  function Fresh(c: Config, piece: nat): Active {
    Active(seq(c.t.BlockCount(piece), _ => 0), Zeros(c.t.PieceLength(piece)))
  }

  function Started(c: Config, s: State, piece: nat): State {
    s.(active := s.active[piece := Fresh(c, piece)])
  }

  function Bumped(v: Active, b: nat): Active
    requires b < |v.counts|
  {
    v.(counts := v.counts[b := v.counts[b] + 1])
  }

  function Asked(c: Config, p: Peer, piece: nat, b: nat, now: int): Peer {
    Send(p.(ourRequests := p.ourRequests[Pack(piece, b * STANDARD_BLOCK_LENGTH) := now]),
         RequestMessage(c, REQUEST, piece, b))
  }

  function Requested(c: Config, s: State, a: Address, piece: nat, b: nat, now: int): State
    requires a in s.peers && piece in s.active && b < |s.active[piece].counts|
  {
    s.(active := s.active[piece := Bumped(s.active[piece], b)],
       peers := s.peers[a := Asked(c, s.peers[a], piece, b, now)])
  }

  ghost predicate RequestsActive(c: Config, s: State, a: Address, now: int, endgame: bool, s': State)
    requires a in s.peers
  {
    exists k, b: nat ::
      && k in s.active && k in s.peers[a].have
      && (if endgame then EndgameBlock(s.active[k].counts, b) else FreeBlock(s.active[k].counts, b))
      && s' == Requested(c, s, a, k, b, now)
  }

  ghost predicate StartsPiece(c: Config, s: State, a: Address, now: int, s': State)
    requires a in s.peers
  {
    exists k: nat ::
      && Unclaimed(s, s.peers[a], k) && k < c.t.totalPieces
      && c.t.BlockCount(k) > 0
      && s' == Requested(c, Started(c, s, k), a, k, 0, now)
  }

  /** RequestBlock: a free block of an active piece if there is one; else, unless too many pieces are active,
      a new piece if there is one, else a block somebody else was asked for, else we lose interest. */
  ghost predicate RequestBlock(c: Config, s: State, a: Address, now: int, s': State)
    requires a in s.peers
  {
    var p := s.peers[a];
    || RequestsActive(c, s, a, now, false, s')
    || (&& NoFreeBlock(s, p)
        && if |s.active| >= c.maxActive then s' == s
           else if exists k :: Unclaimed(s, p, k) then StartsPiece(c, s, a, now, s')
           else if exists k :: k in s.active && k in p.have && !Complete(s.active[k].counts)
           then RequestsActive(c, s, a, now, true, s')
           else s' == WithPeer(s, a, SetInterested(p, false)))
  }

  // ---- Receiving blocks ----

  ghost predicate Complete(counts: seq<int>) {
    forall b | 0 <= b < |counts| :: counts[b] == -1
  }

  /** copy(v.buffer[begin:], data) */
  function Filled(v: Active, begin: nat, data: seq<byte>): Active
    requires begin <= |v.buffer|
  {
    v.(buffer := Splice(v.buffer, begin, data[..Min(|data|, |v.buffer| - begin)]))
  }

  function Copied(s: State, piece: nat, begin: nat, data: seq<byte>): State
    requires piece in s.active && begin <= |s.active[piece].buffer|
  {
    s.(active := s.active[piece := Filled(s.active[piece], begin, data)])
  }

  function Cancelled(c: Config, p: Peer, piece: nat, block: nat): Peer
  {
    Send(p.(ourRequests := p.ourRequests - {Pack(piece, block * STANDARD_BLOCK_LENGTH)}),
         RequestMessage(c, CANCEL, piece, block))
  }

  function HereNow(v: Active, block: nat): Active
    requires block < |v.counts|
  {
    v.(counts := v.counts[block := -1])
  }

  function Answer(c: Config, p: Peer, sender: bool, piece: nat, begin: nat, asked: int): Peer {
    var key := Pack(piece, begin);
    if sender then p.(ourRequests := p.ourRequests - {key})
    else if asked > 1 && key in p.ourRequests then Cancelled(c, p, piece, begin / STANDARD_BLOCK_LENGTH)
    else p
  }

  /** The request is forgotten by the peer that answered it, and cancelled at every other peer that has it
      if the count says that more than one was asked. */
  function Answered(c: Config, peers: map<Address, Peer>, a: Address, piece: nat, begin: nat,
                    asked: int): map<Address, Peer> {
    map b | b in peers :: Answer(c, peers[b], b == a, piece, begin, asked)
  }

  function Marked(c: Config, s: State, a: Address, piece: nat, begin: nat): State
    requires a in s.peers && piece in s.active
    requires begin / STANDARD_BLOCK_LENGTH < |s.active[piece].counts|
  {
    var block := begin / STANDARD_BLOCK_LENGTH;
    s.(active := s.active[piece := HereNow(s.active[piece], block)],
       peers := Answered(c, s.peers, a, piece, begin, s.active[piece].counts[block]))
  }

  function Uint64Minus(x: nat, y: nat): nat {
    (x - y) % TWO_TO_THE_64
  }

  lemma SmallMinus(x: nat, y: nat)
    requires y <= x < TWO_TO_THE_63
    ensures Uint64Minus(x, y) == x - y
  {
  }

  function Announce(p: Peer, piece: nat): Peer {
    if piece in p.have then p else Send(p, HaveMessage(piece))
  }

  function Announced(peers: map<Address, Peer>, piece: nat): map<Address, Peer> {
    map b | b in peers :: Announce(peers[b], piece)
  }

  /** The resume file is written anew with every piece, if one is kept. */
  function Saved(c: Config, pieceSet: set<nat>, saved: Option<seq<byte>>): Option<seq<byte>> {
    if c.quickResume then Some(Bitsets.Encode(c.t.totalPieces, pieceSet)) else saved
  }

  /** A verified piece: written, counted, saved, and announced to the peers that lack it. */
  ghost function Stored(c: Config, s: State, piece: nat): State
    requires piece in s.active
    requires c.t.Start(piece) + |s.active[piece].buffer| <= |s.flat|
  {
    var content := s.active[piece].buffer;
    s.(active := s.active - {piece},
       pieceSet := s.pieceSet + {piece},
       goodPieces := s.goodPieces + 1,
       left := Uint64Minus(s.left, |content|),
       saved := Saved(c, s.pieceSet + {piece}, s.saved),
       flat := Splice(s.flat, c.t.Start(piece), content),
       peers := Announced(s.peers, piece))
  }

  /** A cache keeps any part of what it may hold; without a cache nothing is held. */
  ghost predicate CacheKeeps(c: Config, boxes: map<nat, seq<byte>>, most: map<nat, seq<byte>>) {
    && (!c.cached ==> boxes == map[])
    && forall i | i in boxes :: i in most && boxes[i] == most[i]
  }

  /** A completed piece that fails the hash is thrown away, and the connection of its last sender is closed. */
  function Refused(s: State, a: Address, piece: nat): State
    requires a in s.peers
  {
    WithPeer(s, a, s.peers[a].(closed := true)).(active := s.active - {piece})
  }

  /** RecordBlock for a block of an active piece. */
  ghost predicate RecordBlock(c: Config, s: State, a: Address, piece: nat, begin: nat, s': State)
    requires c.Valid() && |s.flat| == c.t.totalSize && a in s.peers && piece in s.active && piece < c.t.totalPieces
    requires |s.active[piece].buffer| == c.t.PieceLength(piece)
    requires begin / STANDARD_BLOCK_LENGTH < |s.active[piece].counts|
  {
    c.t.PieceBounds(piece);
    var m := Marked(c, s, a, piece, begin);
    var content := s.active[piece].buffer;
    if !Complete(m.active[piece].counts) then s' == m
    else if !c.t.Good(content, piece) then s' == Refused(m, a, piece)
    else && CacheKeeps(c, s'.boxes, s.boxes[piece := content])
         && s' == Stored(c, m, piece).(boxes := s'.boxes)
  }

  // ---- Forgetting requests ----

  function LessAsked(counts: seq<int>, piece: nat, keys: set<nat>): (r: seq<int>)
    ensures |r| == |counts|
  {
    seq(|counts|, (b: nat) requires b < |counts| =>
      if Pack(piece, b * STANDARD_BLOCK_LENGTH) in keys && counts[b] > 0 then counts[b] - 1 else counts[b])
  }

  function LessAskedAll(active: map<nat, Active>, keys: set<nat>): map<nat, Active> {
    map k | k in active :: active[k].(counts := LessAsked(active[k].counts, k, keys))
  }

  /** Each forgotten request is taken off the count of its block, never below zero and never off a block that is
      here. */
  function Forgotten(s: State, keys: set<nat>): State {
    s.(active := LessAskedAll(s.active, keys))
  }

  function TimedOut(p: Peer, now: int): set<nat> {
    set key | key in p.ourRequests && now - p.ourRequests[key] > REQUEST_TIMEOUT
  }

  function DoChoke(s: State, a: Address): State
    requires a in s.peers
  {
    var p := s.peers[a];
    WithPeer(Forgotten(s, p.ourRequests.Keys), a, p.(peerChoking := true, ourRequests := map[]))
  }

  function ClosePeer(s: State, a: Address): State
    requires a in s.peers
  {
    Forgotten(s, s.peers[a].ourRequests.Keys).(peers := s.peers - {a})
  }

  // ---- Choking ----

  ghost function InterestedPeers(peers: map<Address, Peer>): set<Address> {
    set a | a in peers && peers[a].peerInterested
  }

  /** The peers that use an upload slot. */
  ghost function Uploading(peers: map<Address, Peer>): set<Address> {
    set a | a in peers && peers[a].peerInterested && !peers[a].amChoking
  }

  ghost function Rechoked(peers: map<Address, Peer>, chosen: set<Address>): map<Address, Peer> {
    map a | a in peers :: if peers[a].peerInterested then SetChoke(peers[a], a !in chosen) else peers[a]
  }

  /** chokePeers: the policy picks up to four of the interested peers and every interested peer is told. */
  ghost predicate ChokePeers(s: State, s': State) {
    exists chosen: set<Address> ::
      && chosen <= InterestedPeers(s.peers)
      && |chosen| == Min(UPLOAD_SLOTS, |InterestedPeers(s.peers)|)
      && s' == s.(peers := Rechoked(s.peers, chosen))
  }

  // ---- Interest ----

  ghost predicate Interesting(pieceSet: set<nat>, p: Peer) {
    exists i :: i in p.have && i !in pieceSet
  }

  // ---- Messages ----

  datatype MessageError =
    | UnexpectedLength
    | HaveOutOfRange
    | LateBitfield
    | InvalidBitfield
    | PieceOutOfRange
    | NotOurPiece
    | BeginOutOfRange
    | EndOutOfRange
    | BlockTooLarge
    | UnexpectedPiece
    | UnexpectedBlockLength
    | UnknownMessage

  /** What a message does to the connection it came on. A crash is a Go run-time panic. */
  datatype Outcome = Proceed | Fail(error: MessageError) | Crash

  function Field(m: seq<byte>, i: nat): nat
    requires i + 4 <= |m|
  {
    BytesToUint32(m[i..i + 4])
  }

  function CheckSpan(c: Config, begin: nat, length: nat): Option<MessageError> {
    if begin >= c.t.pieceLength then Some(BeginOutOfRange)
    else if begin + length > c.t.pieceLength then Some(EndOutOfRange)
    else None
  }

  function CheckOurBlock(c: Config, s: State, m: seq<byte>): Option<MessageError>
  {
    if |m| != 13 then Some(UnexpectedLength)
    else if Field(m, 1) >= c.t.totalPieces then Some(PieceOutOfRange)
    else if Field(m, 1) !in s.pieceSet then Some(NotOurPiece)
    else CheckSpan(c, Field(m, 5), Field(m, 9))
  }

  function CheckPieceMessage(c: Config, s: State, m: seq<byte>): Option<MessageError>
  {
    if |m| < 9 then Some(UnexpectedLength)
    else if Field(m, 1) >= c.t.totalPieces then Some(PieceOutOfRange)
    else if Field(m, 1) in s.pieceSet then None
    else if CheckSpan(c, Field(m, 5), |m| - 9).Some? then CheckSpan(c, Field(m, 5), |m| - 9)
    else if |m| - 9 > MAX_BLOCK_LENGTH then Some(BlockTooLarge)
    else if Field(m, 1) !in s.active then Some(UnexpectedPiece)
    else None
  }

  /** The errors of generalMessage; an error leaves the session as it was and closes the peer. */
  ghost function CheckMessage(c: Config, s: State, p: Peer, m: seq<byte>): Option<MessageError>
    requires m != []
  {
    if m[0] == CHOKE || m[0] == UNCHOKE || m[0] == INTERESTED || m[0] == NOT_INTERESTED then
      if |m| != 1 then Some(UnexpectedLength) else None
    else if m[0] == HAVE then
      if |m| != 5 then Some(UnexpectedLength)
      else if Field(m, 1) >= c.t.totalPieces then Some(HaveOutOfRange) else None
    else if m[0] == BITFIELD then
      if !p.canReceiveBitfield then Some(LateBitfield)
      else if Bitsets.Decode(c.t.totalPieces, m[1..]) == None then Some(InvalidBitfield) else None
    else if m[0] == REQUEST then CheckOurBlock(c, s, m)
    else if m[0] == PIECE then CheckPieceMessage(c, s, m)
    else if m[0] == CANCEL then
      var e := CheckOurBlock(c, s, m);
      if e.Some? then e else if Field(m, 9) != STANDARD_BLOCK_LENGTH then Some(UnexpectedBlockLength) else None
    else if m[0] == PORT then
      if |m| != 3 then Some(UnexpectedLength) else None
    else if m[0] == EXTENSION then None
    else Some(UnknownMessage)
  }

  /** The block that starts at `begin` is the only one of the active piece that is not here yet. */
  ghost predicate LastMissing(s: State, piece: nat, begin: nat) {
    var block := begin / STANDARD_BLOCK_LENGTH;
    piece in s.active && block < |s.active[piece].counts| && Complete(HereNow(s.active[piece], block).counts)
  }

  /** The last piece may be shorter than the piece length that the checks use: a block that starts past its end
      is out of the buffer, and a cached read past its end is out of the cache. The list of hashes may be too short
      for a piece that is complete. */
  ghost predicate Crashes(c: Config, s: State, p: Peer, m: seq<byte>)
    requires m != []
  {
    if m[0] == PIECE then
      && CheckPieceMessage(c, s, m) == None && Field(m, 1) !in s.pieceSet
      && (Field(m, 5) > c.t.PieceLength(Field(m, 1))
          || Field(m, 5) / STANDARD_BLOCK_LENGTH >= c.t.BlockCount(Field(m, 1))
          || (LastMissing(s, Field(m, 1), Field(m, 5)) && !c.t.HasHash(Field(m, 1))))
    else if m[0] == REQUEST then
      && CheckOurBlock(c, s, m) == None && c.cached && !p.amChoking
      && Field(m, 9) > 0 && Field(m, 5) + Field(m, 9) > c.t.PieceLength(Field(m, 1))
    else
      m[0] == EXTENSION && |m| == 1
  }

  function WithPeer(s: State, a: Address, p: Peer): State {
    s.(peers := s.peers[a := p])
  }

  /** Any message but an extension ends the time in which a bitfield is welcome. */
  function Late(s: State, a: Address): State
    requires a in s.peers
  {
    WithPeer(s, a, s.peers[a].(canReceiveBitfield := false))
  }

  ghost predicate SendRequest(c: Config, s: State, a: Address, piece: nat, begin: nat, length: nat, s': State)
    requires c.Valid() && |s.flat| == c.t.totalSize && a in s.peers && piece < c.t.totalPieces
  {
    if s.peers[a].amChoking then s' == s
    else
      && CacheKeeps(c, s'.boxes, s.boxes[piece := c.t.Slice(s.flat, piece)])
      && var data := PaddedRead(s.flat, c.t.Start(piece) + begin, length);
         s' == WithPeer(s, a, Send(s.peers[a], PieceMessage(piece, begin, data))).(boxes := s'.boxes)
  }

  ghost predicate ReceivePiece(c: Config, s: State, a: Address, piece: nat, begin: nat, data: seq<byte>, now: int,
                               s': State)
    requires c.Valid() && |s.flat| == c.t.totalSize && a in s.peers && piece in s.active && piece < c.t.totalPieces
    requires |s.active[piece].buffer| == c.t.PieceLength(piece) && begin <= c.t.PieceLength(piece)
    requires begin / STANDARD_BLOCK_LENGTH < |s.active[piece].counts|
  {
    exists s1, s2 ::
      && RecordBlock(c, Copied(s, piece, begin, data), a, piece, begin, s1)
      && a in s1.peers && RequestBlock(c, s1, a, now, s2)
      && a in s2.peers && s' == Late(s2, a)
  }

  ghost predicate Unchoke(c: Config, s: State, a: Address, now: int, s': State)
    requires a in s.peers
  {
    exists s1, s2 ::
      && RequestBlock(c, WithPeer(s, a, s.peers[a].(peerChoking := false)), a, now, s1)
      && a in s1.peers && RequestBlock(c, s1, a, now, s2)
      && a in s2.peers && s' == Late(s2, a)
  }

  ghost predicate PeerInterest(s: State, a: Address, interested: bool, s': State)
    requires a in s.peers
  {
    exists s1 ::
      && ChokePeers(WithPeer(s, a, s.peers[a].(peerInterested := interested)), s1)
      && a in s1.peers && s' == Late(s1, a)
  }

  ghost function HasPiece(s: State, p: Peer, n: nat): Peer {
    var q := p.(have := p.have + {n});
    if !p.amInterested && n !in s.pieceSet then SetInterested(q, true) else q
  }

  ghost function HasPieces(s: State, p: Peer, pieces: set<nat>): Peer {
    var q := p.(have := pieces);
    SetInterested(q, Interesting(s.pieceSet, q))
  }

  /** What a message without error and without a crash does. */
  ghost predicate Effect(c: Config, s: State, a: Address, m: seq<byte>, now: int, s': State)
    requires c.Valid() && |s.flat| == c.t.totalSize && a in s.peers && m != []
    requires forall k | k in s.active ::
      && |s.active[k].buffer| == c.t.PieceLength(k) && |s.active[k].counts| == c.t.BlockCount(k)
    requires CheckMessage(c, s, s.peers[a], m) == None && !Crashes(c, s, s.peers[a], m)
  {
    var p := s.peers[a];
    if m[0] == CHOKE then s' == Late(DoChoke(s, a), a)
    else if m[0] == UNCHOKE then Unchoke(c, s, a, now, s')
    else if m[0] == INTERESTED then PeerInterest(s, a, true, s')
    else if m[0] == NOT_INTERESTED then PeerInterest(s, a, false, s')
    else if m[0] == HAVE then s' == Late(WithPeer(s, a, HasPiece(s, p, Field(m, 1))), a)
    else if m[0] == BITFIELD then
      s' == Late(WithPeer(s, a, HasPieces(s, p, Bitsets.Decode(c.t.totalPieces, m[1..]).value)), a)
    else if m[0] == REQUEST then SendRequest(c, s, a, Field(m, 1), Field(m, 5), Field(m, 9), s')
    else if m[0] == PIECE && Field(m, 1) !in s.pieceSet then
      ReceivePiece(c, s, a, Field(m, 1), Field(m, 5), m[9..], now, s')
    else if m[0] == EXTENSION then
      s' == WithPeer(s, a, Send(p, BitfieldMessage(c, s.pieceSet)))
    else s' == Late(s, a)
  }

  // ---- Adding peers ----

  function NewPeer(id: string): Peer {
    Peer(id, {}, true, false, true, false, map[], true, false, [])
  }

  /** A connection is turned away if it is our own, if we know its peer id, or if we have enough peers.
      `greeting` is the first message: an extension handshake, or our bitfield. */
  ghost function AddPeer(c: Config, s: State, a: Address, id: string, greeting: seq<byte>): State {
    if id == c.ourId || (exists b :: b in s.peers && s.peers[b].id == id) || |s.peers| >= MAX_NUM_PEERS then s
    else WithPeer(s, a, Send(NewPeer(id), greeting))
  }
}
