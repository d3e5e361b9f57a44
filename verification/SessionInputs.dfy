/** What reaches the main loop, and what a run of the main loop does with it. */
module SessionInputs {
  import opened Bytes
  import opened SessionState
  import opened SessionInvariant
  import opened SessionSteps
  import SessionReplies
  import SessionRun
  import SessionWire

  /** The handshake of a connection is the extension handshake, for a peer that supports it. */
  datatype Input =
    | Tick
    | Connection(address: Address, id: string, supportsExtensions: bool, handshake: seq<byte>)
    | Received(address: Address, message: Option<seq<byte>>, now: int)
    | KeepAliveDue(address: Address, now: int)
    | Silent(address: Address)
  {
    predicate Ok() {
      Connection? ==> |handshake| >= 2 && handshake[0] == EXTENSION
    }
  }

  /** The input is about the session as a whole or about a peer that is connected. */
  ghost predicate Concerns(s: State, input: Input) {
    input.Tick? || input.Connection? || input.address in s.peers
  }

  /** The event that the input is. */
  ghost function EventOf(c: Config, s: State, input: Input): SessionRun.Event {
    match input
    case Tick => SessionRun.ChokeTick
    case Connection(address, id, supportsExtensions, handshake) =>
      SessionRun.Connect(address, id, Greeting(c, s, supportsExtensions, handshake))
    case Received(address, message, now) => SessionRun.Message(address, message, now)
    case KeepAliveDue(address, now) => SessionRun.KeepAlive(address, now)
    case Silent(address) => SessionRun.Expire(address)
  }

  /** At most one event: none if the input is from an address that is not connected. */
  ghost function Events(c: Config, s: State, input: Input): (events: seq<SessionRun.Event>)
    ensures |events| <= 1
  {
    if Concerns(s, input) then [EventOf(c, s, input)] else []
  }

  /** The input is a message with which the program panics. */
  ghost predicate Kills(c: Config, s: State, input: Input) {
    input.Received? && input.message.Some? && Panics(c, s, input.address, input.message.value)
  }

  /** The input is one event, or is dropped because its peer is not connected. */
  ghost predicate Handles(c: Config, s: State, input: Input, s': State) {
    && Sound(c, s) && Sound(c, s') && !Kills(c, s, input)
    && if Concerns(s, input) then SessionRun.Step(c, s, EventOf(c, s, input), s') else s' == s
  }

  /** The main loop takes the inputs one after the other, and together they are exactly these events. */
  ghost predicate Processes(c: Config, s: State, inputs: seq<Input>, events: seq<SessionRun.Event>, s': State)
    decreases |inputs|
  {
    if inputs == [] then events == [] && s' == s && Sound(c, s)
    else
      && Events(c, s, inputs[0]) <= events
      && exists s1 :: Handles(c, s, inputs[0], s1)
                      && Processes(c, s1, inputs[1..], events[|Events(c, s, inputs[0])|..], s')
  }

  lemma OnlyMessagesKill(c: Config, s: State, input: Input)
    ensures Kills(c, s, input) ==> Concerns(s, input) && input.message.value != []
  {
  }

  lemma NoInputs(c: Config, s: State)
    requires Sound(c, s)
    ensures Processes(c, s, [], [], s)
  {
  }

  /** One more input after those that were taken. */
  lemma {:induction false} OneMoreInput(c: Config, s: State, inputs: seq<Input>, events: seq<SessionRun.Event>,
                                        s1: State, input: Input, s2: State)
    requires Processes(c, s, inputs, events, s1) && Handles(c, s1, input, s2)
    ensures Processes(c, s, inputs + [input], events + Events(c, s1, input), s2)
    decreases |inputs|
  {
    hide Handles, Events, Sound;
    var more := Events(c, s1, input);
    if inputs == [] {
      LastInput(c, s, input, s2);
      assert [] + [input] == [input] && [] + more == more;
    } else {
      var own := Events(c, s, inputs[0]);
      var next :| Handles(c, s, inputs[0], next) && Processes(c, next, inputs[1..], events[|own|..], s1);
      OneMoreInput(c, next, inputs[1..], events[|own|..], s1, input, s2);
      assert (inputs + [input])[1..] == inputs[1..] + [input];
      assert (events + more)[|own|..] == events[|own|..] + more;
    }
  }

  lemma LastInput(c: Config, s: State, input: Input, s': State)
    requires Handles(c, s, input, s')
    ensures Processes(c, s, [input], Events(c, s, input), s')
  {
    assert ([input])[1..] == [] && Events(c, s, input)[|Events(c, s, input)|..] == [];
    assert Processes(c, s', [], [], s');
  }

  lemma HandlesLeads(c: Config, s: State, input: Input, s': State)
    requires Handles(c, s, input, s')
    ensures Leads(c, s, Events(c, s, input), s')
  {
    hide EventOf, Kills, Sound, Leads, SessionRun.Step;
    NoEvents(c, s);
    if Concerns(s, input) {
      NextEvent(c, s, [], s, EventOf(c, s, input), s');
      assert [] + [EventOf(c, s, input)] == [EventOf(c, s, input)];
    }
  }

  /** A run of the main loop is a run of the transition system, and what was verified stays verified. */
  lemma {:induction false} ProcessesLeads(c: Config, s: State, inputs: seq<Input>, events: seq<SessionRun.Event>,
                                          s': State)
    requires Processes(c, s, inputs, events, s')
    ensures Leads(c, s, events, s') && |events| <= |inputs|
    ensures Truthful(c, s) ==> Truthful(c, s')
    decreases |inputs|
  {
    hide Handles, Sound, Leads, Truthful, Events;
    if inputs == [] {
      NoEvents(c, s);
    } else {
      var own := Events(c, s, inputs[0]);
      var s1 :| Handles(c, s, inputs[0], s1) && Processes(c, s1, inputs[1..], events[|own|..], s');
      HandlesLeads(c, s, inputs[0], s1);
      ProcessesLeads(c, s1, inputs[1..], events[|own|..], s');
      LeadsOn(c, s, own, s1, events[|own|..], s');
      assert own + events[|own|..] == events;
    }
    if Truthful(c, s) {
      LeadsVerified(c, s, events, s');
    }
  }

  // ---- What the inputs do ----

  /** A new peer is sent the handshake if it supports extensions, else the bitfield of exactly the pieces we have. */
  lemma ConnectionGreeted(c: Config, s: State, input: Input, s': State)
    requires Handles(c, s, input, s') && input.Connection? && s' != s
    ensures input.address in s'.peers && |s'.peers[input.address].sent| == 1
    ensures var greeting := s'.peers[input.address].sent[0];
            if input.supportsExtensions then greeting == input.handshake
            else SessionWire.IsBitfield(c, greeting) && SessionWire.Bits(c, greeting) == s.pieceSet
  {
    hide Inv, SessionWire.HasBit, BitfieldMessage, SessionRun.Step;
    SoundInv(c, s);
    SessionReplies.HeldPieces(c, s);
    SessionWire.BitfieldWired(c, s.pieceSet);
    SessionReplies.Connects(c, s, EventOf(c, s, input), s');
  }

  /** A tick chooses up to four of the interested peers, a silent peer and an ended connection go, a keep-alive is an
      empty message, and a message is handled as it is. */
  lemma InputsTaken(c: Config, s: State, input: Input, s': State)
    requires Handles(c, s, input, s') && Concerns(s, input)
    ensures input.Tick? ==> SessionReplies.OnlyChoking(s, s')
                            && |Uploading(s'.peers)| == Min(4, |InterestedPeers(s'.peers)|)
    ensures input.Silent? || (input.Received? && input.message == None) ==> s'.peers == s.peers - {input.address}
    ensures input.KeepAliveDue? ==>
              s'.peers == s.peers[input.address := s.peers[input.address].(sent := s.peers[input.address].sent + [[]])]
    ensures input.Received? && input.message == Some([]) ==> s' == s
    ensures input.Received? && input.message.Some? && input.message.value != [] ==>
              SessionReplies.Gets(c, s, input.address, input.message.value, input.now, s')
  {
    hide Inv, SessionReplies.OnlyChoking, SessionReplies.TakenOff, CheckMessage, Crashes, Effect, SessionReplies.Proper;
    hide ChokePeers;
    SoundInv(c, s);
    match input
    case Tick =>
      SessionReplies.Ticks(c, s, s');
      TickSlots(c, s, s');
    case Connection(_, _, _, _) =>
    case Received(a, m, now) =>
      if m == None {
        SessionReplies.ConnectionEnds(c, s, EventOf(c, s, input), s');
      }
    case KeepAliveDue(a, now) => SessionReplies.KeptAlive(c, s, a, now, s');
    case Silent(a) => SessionReplies.ConnectionEnds(c, s, EventOf(c, s, input), s');
  }

  lemma TickSlots(c: Config, s: State, s': State)
    requires c.Valid() && Inv(c, s) && ChokePeers(s, s')
    ensures |Uploading(s'.peers)| == Min(4, |InterestedPeers(s'.peers)|)
  {
    ChokePeersKeeps(c, s, s');
  }
}
