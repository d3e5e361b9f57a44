/** The admission loop of RunTorrents: how many torrents are under way at once, and in which order they are taken.
    The main loop, the creating goroutine and one goroutine per running torrent talk over three channels. */
module Admission {
  import opened Bytes

  type File = string
  type InfoHash = string

  const START_CAPACITY: nat := 1
  const DONE_CAPACITY: nat := 1

  datatype Session = Session(file: File, infoHash: InfoHash)

  /** What the creating goroutine is doing: waiting for a file, making a session, or waiting to report the outcome. */
  datatype Creator = Idle | Creating(file: File) | Failed(file: File) | Created(session: Session)

  /** Where the main function is. It sends to the channel of files in two places. */
  datatype Phase = Submitting(i: nat) | Looping | Resubmitting | Exited

  datatype System = System(
    phase: Phase,
    torrentQueue: seq<File>,
    torrentSessions: map<InfoHash, Session>,
    theWorldIsEnding: bool,
    createChan: seq<File>,
    startChan: seq<Session>,
    doneChan: seq<Option<InfoHash>>,  // None: the session could not be created
    creator: Creator,
    running: seq<Session>,            // in DoTorrent
    reporting: seq<Session>,          // back from DoTorrent, sending to doneChan
    submitted: seq<File>)             // every file ever sent to createChan

  datatype Action =
    | Submit
    | EndSubmitting
    | TakeFile
    | FailToCreate
    | Create(infoHash: InfoHash)
    | SendFailure
    | SendCreated
    | Start
    | Finish(k: nat)
    | Report(k: nat)
    | Done
    | Resubmit
    | Quit

  function Remove<T>(s: seq<T>, k: nat): seq<T>
    requires k < |s|
  {
    s[..k] + s[k + 1..]
  }

  function Initial(files: seq<File>, maxActive: nat): System {
    var rest := if |files| > maxActive then files[maxActive..] else [];
    System(Submitting(0), rest, map[], false, [], [], [], Idle, [], [], [])
  }

  /** A send is possible only if the channel has room. */
  predicate Enabled(files: seq<File>, maxActive: nat, s: System, a: Action) {
    match a
    case Submit => s.phase.Submitting? && WantsToSubmit(files, maxActive, s) && |s.createChan| < maxActive
    case EndSubmitting => s.phase.Submitting? && !WantsToSubmit(files, maxActive, s)
    case TakeFile => s.creator.Idle? && s.createChan != []
    case FailToCreate => s.creator.Creating?
    case Create(_) => s.creator.Creating?
    case SendFailure => s.creator.Failed? && |s.doneChan| < DONE_CAPACITY
    case SendCreated => s.creator.Created? && |s.startChan| < START_CAPACITY
    case Start => s.phase.Looping? && s.startChan != []
    case Finish(k) => k < |s.running|
    case Report(k) => k < |s.reporting| && |s.doneChan| < DONE_CAPACITY
    case Done => s.phase.Looping? && s.doneChan != []
    case Resubmit => s.phase.Resubmitting? && s.torrentQueue != [] && |s.createChan| < maxActive
    case Quit => s.phase.Looping?
  }

  predicate WantsToSubmit(files: seq<File>, maxActive: nat, s: System) {
    s.phase.Submitting? && s.phase.i < |files| && s.phase.i < maxActive
  }

  function Next(files: seq<File>, maxActive: nat, s: System, a: Action): System
    requires Enabled(files, maxActive, s, a)
  {
    match a
    case Submit =>
      var file := files[s.phase.i];
      s.(phase := Submitting(s.phase.i + 1), createChan := s.createChan + [file], submitted := s.submitted + [file])
    case EndSubmitting => s.(phase := Looping)
    case TakeFile => s.(creator := Creating(s.createChan[0]), createChan := s.createChan[1..])
    case FailToCreate => s.(creator := Failed(s.creator.file))
    case Create(infoHash) => s.(creator := Created(Session(s.creator.file, infoHash)))
    case SendFailure => s.(creator := Idle, doneChan := s.doneChan + [None])
    case SendCreated => s.(creator := Idle, startChan := s.startChan + [s.creator.session])
    case Start =>
      var ts := s.startChan[0];
      if s.theWorldIsEnding then s.(startChan := s.startChan[1..])
      else s.(startChan := s.startChan[1..],
              torrentSessions := s.torrentSessions[ts.infoHash := ts],
              running := s.running + [ts])
    case Finish(k) => s.(running := Remove(s.running, k), reporting := s.reporting + [s.running[k]])
    case Report(k) => s.(reporting := Remove(s.reporting, k), doneChan := s.doneChan + [Some(s.reporting[k].infoHash)])
    case Done =>
      var d := s.doneChan[0];
      var sessions := if d.Some? then s.torrentSessions - {d.value} else s.torrentSessions;
      s.(doneChan := s.doneChan[1..],
         torrentSessions := sessions,
         phase := if !s.theWorldIsEnding && s.torrentQueue != [] then Resubmitting
                  else if sessions == map[] then Exited
                  else Looping)
    case Resubmit =>
      s.(phase := Looping,
         createChan := s.createChan + [s.torrentQueue[0]],
         submitted := s.submitted + [s.torrentQueue[0]],
         torrentQueue := s.torrentQueue[1..])
    case Quit => s.(theWorldIsEnding := true)
  }

  // ---- The invariant ----

  /** Torrents in creation, waiting to start, running, or reporting that they are done. */
  function UnderWay(s: System): nat {
    |s.createChan| + (if s.creator.Idle? then 0 else 1) + |s.startChan| + |s.running| + |s.reporting| + |s.doneChan|
  }

  /** A session with this hash was started and its end is not yet seen. */
  ghost predicate Tracks(s: System, h: InfoHash) {
    || (exists ts :: ts in s.running && ts.infoHash == h)
    || (exists ts :: ts in s.reporting && ts.infoHash == h)
    || Some(h) in s.doneChan
  }

  ghost predicate Tracked(s: System) {
    forall h | h in s.torrentSessions :: Tracks(s, h)
  }

  ghost predicate Inv(files: seq<File>, maxActive: nat, s: System) {
    && UnderWay(s) <= maxActive
    && |s.submitted| <= |files| && Tracked(s)
    && (match s.phase
        case Submitting(i) =>
          && i <= Min(|files|, maxActive) && UnderWay(s) == i && s.submitted == files[..i]
          && s.torrentQueue == files[Min(|files|, maxActive)..] && !s.theWorldIsEnding
        case Resubmitting =>
          && UnderWay(s) + 1 == maxActive && s.torrentQueue != []
          && s.submitted + s.torrentQueue == files && !s.theWorldIsEnding
        case Looping =>
          && s.submitted + s.torrentQueue == files
          && (!s.theWorldIsEnding && s.torrentQueue != [] ==> UnderWay(s) == maxActive)
          && (!s.theWorldIsEnding && maxActive >= 1 && files != [] ==> UnderWay(s) >= 1)
        case Exited =>
          && s.submitted + s.torrentQueue == files
          && (!s.theWorldIsEnding ==> s.torrentQueue == []))
  }

  lemma InitialInv(files: seq<File>, maxActive: nat)
    ensures Inv(files, maxActive, Initial(files, maxActive))
  {
  }

  lemma SubmitKeeps(files: seq<File>, maxActive: nat, s: System)
    requires Inv(files, maxActive, s) && Enabled(files, maxActive, s, Submit)
    ensures Inv(files, maxActive, Next(files, maxActive, s, Submit))
  {
    assert files[..s.phase.i + 1] == files[..s.phase.i] + [files[s.phase.i]];
  }

  lemma EndSubmittingKeeps(files: seq<File>, maxActive: nat, s: System)
    requires Inv(files, maxActive, s) && Enabled(files, maxActive, s, EndSubmitting)
    ensures Inv(files, maxActive, Next(files, maxActive, s, EndSubmitting))
  {
    assert files[..s.phase.i] + files[s.phase.i..] == files;
  }

  lemma ResubmitKeeps(files: seq<File>, maxActive: nat, s: System)
    requires Inv(files, maxActive, s) && Enabled(files, maxActive, s, Resubmit)
    ensures Inv(files, maxActive, Next(files, maxActive, s, Resubmit))
  {
    var q := s.torrentQueue;
    assert q == [q[0]] + q[1..];
    assert s.submitted + q == (s.submitted + [q[0]]) + q[1..];
  }

  /** The moves in which a torrent passes from one stage to the next, or leaves the last one. */
  lemma TransferKeeps(files: seq<File>, maxActive: nat, s: System, a: Action)
    requires Inv(files, maxActive, s) && Enabled(files, maxActive, s, a)
    requires !a.Submit? && !a.EndSubmitting? && !a.Resubmit?
    ensures UnderWay(Next(files, maxActive, s, a)) <= UnderWay(s)
    ensures a.Done? ==> UnderWay(Next(files, maxActive, s, a)) + 1 == UnderWay(s)
    ensures !a.Done? && !s.theWorldIsEnding ==> UnderWay(Next(files, maxActive, s, a)) == UnderWay(s)
    ensures Next(files, maxActive, s, a).theWorldIsEnding == (s.theWorldIsEnding || a.Quit?)
    ensures a.Quit? ==> s.phase.Looping?
    ensures Next(files, maxActive, s, a).submitted == s.submitted
    ensures Next(files, maxActive, s, a).torrentQueue == s.torrentQueue
    ensures a.Done? || Next(files, maxActive, s, a).phase == s.phase
  {
  }

  lemma Removed<T>(s: seq<T>, k: nat, x: T)
    requires k < |s| && x in s && x != s[k]
    ensures x in Remove(s, k)
  {
    var j :| 0 <= j < |s| && s[j] == x;
    assert j < k ==> Remove(s, k)[j] == x;
    assert j > k ==> Remove(s, k)[j - 1] == x;
  }

  lemma StartTracks(files: seq<File>, maxActive: nat, s: System)
    requires Tracked(s) && Enabled(files, maxActive, s, Start)
    ensures Tracked(Next(files, maxActive, s, Start))
  {
    var s1 := Next(files, maxActive, s, Start);
    forall h | h in s1.torrentSessions
      ensures Tracks(s1, h)
    {
      if h == s.startChan[0].infoHash && !s.theWorldIsEnding {
        assert s.startChan[0] in s1.running;
      } else {
        assert Tracks(s, h);
        assert forall ts | ts in s.running :: ts in s1.running;
      }
    }
  }

  lemma FinishTracks(files: seq<File>, maxActive: nat, s: System, k: nat)
    requires Tracked(s) && Enabled(files, maxActive, s, Finish(k))
    ensures Tracked(Next(files, maxActive, s, Finish(k)))
  {
    var s1 := Next(files, maxActive, s, Finish(k));
    forall h | h in s1.torrentSessions
      ensures Tracks(s1, h)
    {
      assert Tracks(s, h);
      assert forall ts | ts in s.reporting :: ts in s1.reporting;
      if ts :| ts in s.running && ts.infoHash == h {
        if ts == s.running[k] {
          assert ts in s1.reporting;
        } else {
          Removed(s.running, k, ts);
        }
      }
    }
  }

  lemma ReportTracks(files: seq<File>, maxActive: nat, s: System, k: nat)
    requires Tracked(s) && Enabled(files, maxActive, s, Report(k))
    ensures Tracked(Next(files, maxActive, s, Report(k)))
  {
    var s1 := Next(files, maxActive, s, Report(k));
    forall h | h in s1.torrentSessions
      ensures Tracks(s1, h)
    {
      assert Tracks(s, h);
      if ts :| ts in s.reporting && ts.infoHash == h {
        if ts == s.reporting[k] {
          assert Some(h) in s1.doneChan;
        } else {
          Removed(s.reporting, k, ts);
        }
      }
    }
  }

  lemma DoneTracks(files: seq<File>, maxActive: nat, s: System)
    requires Tracked(s) && Enabled(files, maxActive, s, Done)
    ensures Tracked(Next(files, maxActive, s, Done))
  {
    var s1 := Next(files, maxActive, s, Done);
    forall h | h in s1.torrentSessions
      ensures Tracks(s1, h)
    {
      assert Tracks(s, h);
      if Some(h) in s.doneChan {
        var j :| 0 <= j < |s.doneChan| && s.doneChan[j] == Some(h);
        assert j > 0 && s1.doneChan[j - 1] == Some(h);
      }
    }
  }

  lemma StepTracks(files: seq<File>, maxActive: nat, s: System, a: Action)
    requires Tracked(s) && Enabled(files, maxActive, s, a)
    ensures Tracked(Next(files, maxActive, s, a))
  {
    match a
    case Start => StartTracks(files, maxActive, s);
    case Finish(k) => FinishTracks(files, maxActive, s, k);
    case Report(k) => ReportTracks(files, maxActive, s, k);
    case Done => DoneTracks(files, maxActive, s);
    case _ =>
      var s1 := Next(files, maxActive, s, a);
      assert s1.torrentSessions == s.torrentSessions && s1.running == s.running && s1.reporting == s.reporting;
      assert forall d | d in s.doneChan :: d in s1.doneChan;
      forall h | h in s1.torrentSessions
        ensures Tracks(s1, h)
      {
        assert Tracks(s, h);
      }
  }

  /** With nothing under way no session is left, and the loop ends. */
  lemma SessionsUnderWay(s: System)
    requires Tracked(s)
    ensures s.torrentSessions == map[] || UnderWay(s) >= 1
  {
    if s.torrentSessions != map[] {
      var h :| h in s.torrentSessions;
      assert Tracks(s, h);
    }
  }

  lemma DoneKeeps(files: seq<File>, maxActive: nat, s: System)
    requires Inv(files, maxActive, s) && Enabled(files, maxActive, s, Done)
    ensures Inv(files, maxActive, Next(files, maxActive, s, Done))
  {
    hide UnderWay, Tracked;
    TransferKeeps(files, maxActive, s, Done);
    DoneTracks(files, maxActive, s);
    SessionsUnderWay(Next(files, maxActive, s, Done));
  }

  lemma StepKeeps(files: seq<File>, maxActive: nat, s: System, a: Action)
    requires Inv(files, maxActive, s) && Enabled(files, maxActive, s, a)
    ensures Inv(files, maxActive, Next(files, maxActive, s, a))
  {
    hide UnderWay, Enabled, Next, Tracked;
    StepTracks(files, maxActive, s, a);
    match a
    case Submit => SubmitKeeps(files, maxActive, s);
    case EndSubmitting => EndSubmittingKeeps(files, maxActive, s);
    case Resubmit => ResubmitKeeps(files, maxActive, s);
    case Done => DoneKeeps(files, maxActive, s);
    case _ => TransferKeeps(files, maxActive, s, a);
  }

  ghost predicate Reaches(files: seq<File>, maxActive: nat, s: System, actions: seq<Action>, s': System)
    decreases |actions|
  {
    if actions == [] then s == s'
    else Enabled(files, maxActive, s, actions[0])
         && Reaches(files, maxActive, Next(files, maxActive, s, actions[0]), actions[1..], s')
  }

  lemma {:induction false} RunKeeps(files: seq<File>, maxActive: nat, s: System, actions: seq<Action>, s': System)
    requires Inv(files, maxActive, s) && Reaches(files, maxActive, s, actions, s')
    ensures Inv(files, maxActive, s')
    decreases |actions|
  {
    if actions == [] {
    } else {
      StepKeeps(files, maxActive, s, actions[0]);
      RunKeeps(files, maxActive, Next(files, maxActive, s, actions[0]), actions[1..], s');
    }
  }

  /** In every reachable state at most maxActive torrents are under way, whichever goroutines moved. */
  lemma NeverTooMany(files: seq<File>, maxActive: nat, actions: seq<Action>, s: System)
    requires Reaches(files, maxActive, Initial(files, maxActive), actions, s)
    ensures UnderWay(s) <= maxActive
  {
    InitialInv(files, maxActive);
    RunKeeps(files, maxActive, Initial(files, maxActive), actions, s);
  }

  /** Whenever the main function wants to send a file to the creating goroutine, the channel has room. */
  lemma SendsNeverBlock(files: seq<File>, maxActive: nat, actions: seq<Action>, s: System)
    requires Reaches(files, maxActive, Initial(files, maxActive), actions, s)
    ensures WantsToSubmit(files, maxActive, s) ==> Enabled(files, maxActive, s, Submit)
    ensures s.phase.Resubmitting? ==> Enabled(files, maxActive, s, Resubmit)
  {
    InitialInv(files, maxActive);
    RunKeeps(files, maxActive, Initial(files, maxActive), actions, s);
  }

  /** The files sent are the first of the list, each once and in order; the rest is waiting. */
  lemma SubmittedInOrder(files: seq<File>, maxActive: nat, actions: seq<Action>, s: System)
    requires Reaches(files, maxActive, Initial(files, maxActive), actions, s)
    ensures s.submitted <= files
    ensures !s.phase.Submitting? ==> s.torrentQueue == files[|s.submitted|..]
  {
    InitialInv(files, maxActive);
    RunKeeps(files, maxActive, Initial(files, maxActive), actions, s);
    if s.phase.Submitting? {
      assert s.submitted == files[..s.phase.i];
    } else {
      assert s.submitted == (s.submitted + s.torrentQueue)[..|s.submitted|];
    }
  }

  // ---- The queue moves ----

  /** No slot is left idle while a file waits, and the main loop does not end before every file was sent, unless it was
      told to quit. */
  lemma NoSlotIdle(files: seq<File>, maxActive: nat, actions: seq<Action>, s: System)
    requires Reaches(files, maxActive, Initial(files, maxActive), actions, s) && !s.theWorldIsEnding
    ensures s.phase.Looping? && s.torrentQueue != [] ==> UnderWay(s) == maxActive
    ensures s.phase.Exited? ==> s.submitted == files
  {
    InitialInv(files, maxActive);
    RunKeeps(files, maxActive, Initial(files, maxActive), actions, s);
    assert s.submitted + [] == s.submitted;
  }

  /** How many moves are still to come, at most. */
  function Moves(files: seq<File>, s: System): int {
    9 * (|files| - |s.submitted|) + 8 * |s.createChan|
    + (match s.creator
       case Idle => 0
       case Creating(_) => 7
       case Failed(_) => 3
       case Created(_) => 6)
    + 5 * |s.startChan| + 4 * |s.running| + 3 * |s.reporting| + 2 * |s.doneChan|
    + match s.phase
      case Submitting(_) => 3
      case Looping => 1
      case Resubmitting => 2
      case Exited => 0
  }

  lemma MovesDecrease(files: seq<File>, maxActive: nat, s: System, a: Action)
    requires Inv(files, maxActive, s) && Enabled(files, maxActive, s, a) && !a.Quit?
    ensures Moves(files, Next(files, maxActive, s, a)) < Moves(files, s)
  {
    hide Inv;
    var s1 := Next(files, maxActive, s, a);
    match a
    case Submit => assert |s1.createChan| == |s.createChan| + 1 && |s1.submitted| == |s.submitted| + 1;
    case Resubmit => assert |s1.createChan| == |s.createChan| + 1 && |s1.submitted| == |s.submitted| + 1;
    case TakeFile => assert |s1.createChan| == |s.createChan| - 1;
    case Start => assert |s1.startChan| == |s.startChan| - 1 && |s1.running| <= |s.running| + 1;
    case Finish(k) => assert |s1.running| == |s.running| - 1 && |s1.reporting| == |s.reporting| + 1;
    case Report(k) => assert |s1.reporting| == |s.reporting| - 1 && |s1.doneChan| == |s.doneChan| + 1;
    case Done => assert |s1.doneChan| == |s.doneChan| - 1;
    case SendFailure => assert |s1.doneChan| == |s.doneChan| + 1;
    case SendCreated => assert |s1.startChan| == |s.startChan| + 1;
    case _ =>
  }

  /** Nothing more happens unless the program is told to quit. */
  ghost predicate AtRest(files: seq<File>, maxActive: nat, s: System) {
    forall a: Action :: Enabled(files, maxActive, s, a) ==> a.Quit?
  }

  lemma RestIsDone(files: seq<File>, maxActive: nat, s: System)
    requires Inv(files, maxActive, s) && AtRest(files, maxActive, s) && !s.theWorldIsEnding && maxActive >= 1
    ensures s.submitted == files && (files != [] ==> s.phase.Exited?)
  {
    assert !Enabled(files, maxActive, s, Submit) && !Enabled(files, maxActive, s, EndSubmitting);
    assert !Enabled(files, maxActive, s, Resubmit) && !Enabled(files, maxActive, s, TakeFile);
    assert !Enabled(files, maxActive, s, FailToCreate) && !Enabled(files, maxActive, s, SendFailure);
    assert !Enabled(files, maxActive, s, SendCreated) && !Enabled(files, maxActive, s, Start);
    assert !Enabled(files, maxActive, s, Finish(0)) && !Enabled(files, maxActive, s, Report(0));
    assert !Enabled(files, maxActive, s, Done);
    assert s.submitted + [] == s.submitted;
  }

  lemma {:induction false} NotEnding(files: seq<File>, maxActive: nat, s: System, actions: seq<Action>, s': System)
    requires Inv(files, maxActive, s) && Reaches(files, maxActive, s, actions, s') && !s.theWorldIsEnding
    requires Quit !in actions
    ensures !s'.theWorldIsEnding && Moves(files, s') + |actions| <= Moves(files, s)
    decreases |actions|
  {
    hide Moves, Inv;
    if actions != [] {
      var s1 := Next(files, maxActive, s, actions[0]);
      StepKeeps(files, maxActive, s, actions[0]);
      MovesDecrease(files, maxActive, s, actions[0]);
      NotEnding(files, maxActive, s1, actions[1..], s');
    }
  }

  /** A channel without room takes no file. */
  lemma {:induction false} NothingIsSent(files: seq<File>, s: System, actions: seq<Action>, s': System)
    requires Reaches(files, 0, s, actions, s')
    ensures s'.submitted == s.submitted
    decreases |actions|
  {
    if actions != [] {
      NothingIsSent(files, Next(files, 0, s, actions[0]), actions[1..], s');
    }
  }

  /** With at least one slot: a run that is not told to quit is not longer than nine moves for each file and three, and
      when it comes to rest every file was sent and the loop has ended, whichever goroutines moved and whichever
      torrents failed. Without a slot no file is ever sent. */
  lemma EveryFileIsSent(files: seq<File>, maxActive: nat, actions: seq<Action>, s: System)
    requires Reaches(files, maxActive, Initial(files, maxActive), actions, s) && Quit !in actions
    ensures |actions| <= 9 * |files| + 3
    ensures maxActive >= 1 && AtRest(files, maxActive, s) ==>
              s.submitted == files && (files != [] ==> s.phase.Exited?)
    ensures maxActive == 0 ==> s.submitted == []
  {
    var s0 := Initial(files, maxActive);
    if maxActive == 0 {
      NothingIsSent(files, s0, actions, s);
    }
    InitialInv(files, maxActive);
    RunKeeps(files, maxActive, s0, actions, s);
    NotEnding(files, maxActive, s0, actions, s);
    assert Moves(files, s) >= 0;
    if maxActive >= 1 && AtRest(files, maxActive, s) {
      RestIsDone(files, maxActive, s);
    }
  }
}
