/** What the invariant and the single steps add up to over whole runs. */
module SessionTheorems {
  import opened Arith
  import opened Bytes
  import opened Geometry
  import opened SessionState
  import opened SessionInvariant
  import opened SessionRun

  // ---- The stored content ----

  /** The message carries a block of an active piece, within its buffer. */
  ghost predicate Fits(c: Config, s: State, m: seq<byte>, piece: nat) {
    && |m| >= 9 && piece == Field(m, 1) && piece in s.active && piece < c.t.totalPieces
    && |s.active[piece].buffer| == c.t.PieceLength(piece)
    && Field(m, 5) <= |s.active[piece].buffer|
    && Field(m, 5) / STANDARD_BLOCK_LENGTH < |s.active[piece].counts|
  }

  /** The event is the last missing block of the piece, which now has this content. */
  ghost predicate Completes(c: Config, s: State, e: Event, piece: nat, content: seq<byte>) {
    && e.Message? && e.message.Some?
    && var m := e.message.value;
       && Fits(c, s, m, piece)
       && Complete(HereNow(s.active[piece], Field(m, 5) / STANDARD_BLOCK_LENGTH).counts)
       && content == Filled(s.active[piece], Field(m, 5), m[9..]).buffer
  }

  ghost predicate SameStore(s: State, s': State) {
    s'.flat == s.flat && s'.pieceSet == s.pieceSet && s'.saved == s.saved
  }

  /** The store and the set of pieces change by exactly one good piece, and the resume file follows. */
  ghost predicate Adds(c: Config, s: State, s': State, piece: nat, content: seq<byte>)
    requires c.Valid()
  {
    && piece < c.t.totalPieces && piece !in s.pieceSet
    && |content| == c.t.PieceLength(piece) && c.t.Good(content, piece)
    && s'.pieceSet == s.pieceSet + {piece} && s'.saved == Saved(c, s'.pieceSet, s.saved)
    && c.t.Start(piece) + |content| <= |s.flat|
    && s'.flat == Splice(s.flat, c.t.Start(piece), content)
  }

  lemma RecordBlockChanges(c: Config, s: State, a: Address, piece: nat, begin: nat, s': State)
    requires c.Valid() && |s.flat| == c.t.totalSize && a in s.peers && piece in s.active
    requires ActiveOk(c, s.pieceSet, piece, s.active[piece]) && begin / STANDARD_BLOCK_LENGTH < |s.active[piece].counts|
    requires RecordBlock(c, s, a, piece, begin, s')
    ensures || SameStore(s, s')
            || (&& Complete(HereNow(s.active[piece], begin / STANDARD_BLOCK_LENGTH).counts)
                && Adds(c, s, s', piece, s.active[piece].buffer))
  {
    c.t.PieceBounds(piece);
  }

  lemma ReceiveChanges(c: Config, s: State, a: Address, piece: nat, begin: nat, data: seq<byte>, now: int, s': State)
    requires c.Valid() && |s.flat| == c.t.totalSize && a in s.peers && piece in s.active
    requires ActiveOk(c, s.pieceSet, piece, s.active[piece]) && begin / STANDARD_BLOCK_LENGTH < |s.active[piece].counts|
    requires begin <= c.t.PieceLength(piece)
    requires ReceivePiece(c, s, a, piece, begin, data, now, s')
    ensures || SameStore(s, s')
            || (&& Complete(HereNow(s.active[piece], begin / STANDARD_BLOCK_LENGTH).counts)
                && Adds(c, s, s', piece, Filled(s.active[piece], begin, data).buffer))
  {
    var s0 := Copied(s, piece, begin, data);
    var s1, s2 :| RecordBlock(c, s0, a, piece, begin, s1) && a in s1.peers
                  && RequestBlock(c, s1, a, now, s2) && a in s2.peers && s' == Late(s2, a);
    RequestBlockFrame(c, s1, a, now, s2);
    RecordBlockChanges(c, s0, a, piece, begin, s1);
  }

  lemma EffectChanges(c: Config, s: State, e: Event, s': State)
    requires c.Valid() && Inv(c, s)
    requires e.Message? && e.address in s.peers && e.message.Some? && e.message.value != []
    requires CheckMessage(c, s, s.peers[e.address], e.message.value) == None
    requires !Crashes(c, s, s.peers[e.address], e.message.value)
    requires Effect(c, s, e.address, e.message.value, e.now, s')
    ensures || SameStore(s, s')
            || exists piece, content :: Completes(c, s, e, piece, content) && Adds(c, s, s', piece, content)
  {
    var a, m := e.address, e.message.value;
    if Receives(s, m) {
      AcceptedBlock(c, s, s.peers[a], m);
      var piece, begin := Field(m, 1), Field(m, 5);
      ReceiveChanges(c, s, a, piece, begin, m[9..], e.now, s');
      if !SameStore(s, s') {
        assert Completes(c, s, e, piece, Filled(s.active[piece], begin, m[9..]).buffer);
      }
    } else {
      EffectFrame(c, s, a, m, e.now, s');
    }
  }

  /** The store and the set of pieces change only when an event completes a piece whose hash is right,
      and then they change by exactly that piece. */
  lemma StoreChanges(c: Config, s: State, e: Event, s': State)
    requires c.Valid() && Inv(c, s) && Step(c, s, e, s')
    ensures || SameStore(s, s')
            || exists piece, content :: Completes(c, s, e, piece, content) && Adds(c, s, s', piece, content)
  {
    if e.Message? && e.message.Some? && e.message.value != [] {
      if CheckMessage(c, s, s.peers[e.address], e.message.value) == None {
        EffectChanges(c, s, e, s');
      }
    }
  }

  // ---- Verified store ----

  lemma AddsVerified(c: Config, s: State, s': State, piece: nat, content: seq<byte>)
    requires c.Valid() && |s.flat| == c.t.totalSize && s.pieceSet <= c.t.AllPieces()
    requires Adds(c, s, s', piece, content) && Verified(c.t, s.pieceSet, s.flat)
    ensures |s'.flat| == c.t.totalSize && s'.pieceSet <= c.t.AllPieces() && Verified(c.t, s'.pieceSet, s'.flat)
  {
    forall i | i in s'.pieceSet
      ensures c.t.Good(c.t.Slice(s'.flat, i), i)
    {
      c.t.SliceAfterWrite(s.flat, piece, content, i);
    }
  }

  lemma VerifiedStep(c: Config, s: State, e: Event, s': State)
    requires c.Valid() && Inv(c, s) && Step(c, s, e, s') && Verified(c.t, s.pieceSet, s.flat)
    ensures Inv(c, s') && Verified(c.t, s'.pieceSet, s'.flat)
  {
    hide Step, Completes, Adds, Verified;
    StepKeeps(c, s, e, s');
    StoreChanges(c, s, e, s');
    if !SameStore(s, s') {
      var piece, content :| Completes(c, s, e, piece, content) && Adds(c, s, s', piece, content);
      AddsVerified(c, s, s', piece, content);
    }
  }

  /** In every reachable state each piece we have is stored with the content its hash asks for. */
  lemma {:induction false} VerifiedRun(c: Config, s: State, events: seq<Event>, s': State)
    requires c.Valid() && Inv(c, s) && Verified(c.t, s.pieceSet, s.flat) && Reaches(c, s, events, s')
    ensures Inv(c, s') && Verified(c.t, s'.pieceSet, s'.flat)
    decreases |events|
  {
    if events != [] {
      var s1 :| Step(c, s, events[0], s1) && Reaches(c, s1, events[1..], s');
      VerifiedStep(c, s, events[0], s1);
      VerifiedRun(c, s1, events[1..], s');
    }
  }
}
