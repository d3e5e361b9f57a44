/** The resume file: it follows the pieces we have, and loading with it takes up where the session was. */
module SessionResume {
  import opened Arith
  import opened Bytes
  import opened Geometry
  import opened SessionState
  import opened SessionInvariant
  import opened SessionRun
  import opened SessionTheorems
  import Bitsets
  import SessionLimits
  import SessionLoad
  import SessionSteps

  /** A resume file that was written names exactly the pieces we have; none was written as long as these are the pieces
      from the start. */
  ghost predicate UpToDate(c: Config, start: set<nat>, s: State) {
    if s.saved == None then s.pieceSet == start
    else s.saved == Some(Bitsets.Encode(c.t.totalPieces, s.pieceSet))
  }

  lemma StepUpToDate(c: Config, start: set<nat>, s: State, e: Event, s': State)
    requires c.Valid() && c.quickResume && Inv(c, s) && Step(c, s, e, s') && UpToDate(c, start, s)
    ensures UpToDate(c, start, s')
  {
    hide Step, Completes, Inv, Bitsets.Encode;
    StoreChanges(c, s, e, s');
  }

  /** At every moment of a run the resume file is up to date. */
  lemma {:induction false} RunUpToDate(c: Config, start: set<nat>, s: State, events: seq<Event>, s': State)
    requires c.Valid() && c.quickResume && Inv(c, s) && Reaches(c, s, events, s') && UpToDate(c, start, s)
    ensures UpToDate(c, start, s')
    decreases |events|
  {
    hide Step, Inv, UpToDate;
    if events != [] {
      var s1 :| Step(c, s, events[0], s1) && Reaches(c, s1, events[1..], s');
      StepKeeps(c, s, events[0], s1);
      StepUpToDate(c, start, s, events[0], s1);
      RunUpToDate(c, start, s1, events[1..], s');
    }
  }

  /** The number of pieces and the length of the last one follow from the sizes. */
  lemma SizesDetermine(t: Torrent)
    requires t.Valid()
    ensures t.totalPieces == PieceCount(t.totalSize, t.pieceLength)
    ensures t.lastPieceLength == LastLength(t.totalSize, t.pieceLength)
  {
    if t.lastPieceLength == t.pieceLength {
      MulStep(t.totalPieces, t.pieceLength);
      Quotient(t.totalSize, t.totalPieces, t.pieceLength, 0);
    } else {
      Quotient(t.totalSize, t.totalPieces - 1, t.pieceLength, t.lastPieceLength);
    }
  }

  /** What load makes of a resume file that names these pieces. */
  lemma LoadsResume(t: Torrent, flat: seq<byte>, pieceSet: set<nat>, memory: int, r: SessionLoad.Loaded)
    requires t.Valid() && |flat| == t.totalSize >= 1 && pieceSet <= t.AllPieces()
    requires SessionLoad.Loads(flat, t.pieceLength, t.pieces, t.sha1, memory, false,
                               Some(Bitsets.Encode(t.totalPieces, pieceSet)), r)
    ensures r.Ready? && r.t == t && r.pieceSet == pieceSet && Accounting(t, pieceSet, r.goodPieces, r.left)
  {
    hide Accounting, Bitsets.Encode, Bitsets.Decode, PieceCount, LastLength, SessionLoad.Loads;
    SizesDetermine(t);
    Bitsets.DecodeEncode(t.totalPieces, pieceSet);
    var data := Bitsets.Encode(t.totalPieces, pieceSet);
    SessionLoad.LoadsResumed(flat, t.pieceLength, t.pieces, t.sha1, memory, data, pieceSet, r);
  }

  /** A session that is quit after a new piece and loaded with its resume file, over the same files, has exactly the
      pieces and the counters it had, and if its store was verified at the start it is verified again, unread. */
  lemma ResumeRestores(c: Config, s0: State, events: seq<Event>, s: State, memory: int, r: SessionLoad.Loaded)
    requires c.Valid() && c.quickResume && Initial(c, s0) && Reaches(c, s0, events, s) && s.saved.Some?
    requires |s.flat| >= 1
    requires SessionLoad.Loads(s.flat, c.t.pieceLength, c.t.pieces, c.t.sha1, memory, false, s.saved, r)
    ensures r.Ready? && r.t == c.t
    ensures r.pieceSet == s.pieceSet && r.goodPieces == s.goodPieces && r.left == s.left
    ensures Verified(c.t, s0.pieceSet, s0.flat) ==> SessionSteps.Truthful(c, SessionLimits.Beginning(r, s.flat))
  {
    hide SessionLoad.Loads, Reaches, Verified, Bitsets.Encode;
    InitialInv(c, s0);
    RunKeeps(c, s0, events, s);
    RunUpToDate(c, s0.pieceSet, s0, events, s);
    LoadsResume(c.t, s.flat, s.pieceSet, memory, r);
    InitialInv(c, SessionLimits.Beginning(r, s.flat));
    if Verified(c.t, s0.pieceSet, s0.flat) {
      VerifiedRun(c, s0, events, s);
    }
  }
}
