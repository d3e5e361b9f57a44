/** The way of a message from sendMessage to the other side: the queueing writer, the framing on the wire, and
    the reader. See BEP 3, section "peer protocol": each message is preceded by its length as four bytes. */
module PeerStream {
  import opened Bytes

  type Msg = seq<byte>

  const KEEP_ALIVE_INTERVAL: int := 120_000_000_000  // two minutes, in nanoseconds

  // ---- The queueing writer ----

  /** Decides what the select statement does next when it has a choice. */
  datatype Choice = Receive | Send

  /** The goroutine between the two channels. At each turn it may take the next message of `input`, if there is one,
      or hand the oldest queued message on, if there is one; `input` ends when the channel is closed, and then
      whatever is still queued is thrown away. */
  class QueueingWriter {
    var queue: map<nat, Msg>
    var head: nat
    var tail: nat
    ghost var received: seq<Msg>
    ghost var sent: seq<Msg>

    /** The queue holds exactly the messages that were received and not sent, under consecutive keys. */
    ghost predicate Valid()
      reads this
    {
      && tail <= head == |received| && tail == |sent|
      && sent == received[..tail]
      && (forall k: nat :: k in queue <==> tail <= k < head)
      && forall k | k in queue :: queue[k] == received[k]
    }

    constructor ()
      ensures Valid() && received == [] && sent == []
    {
      queue, head, tail := map[], 0, 0;
      received, sent := [], [];
    }

    method Enqueue(m: Msg)
      requires Valid()
      modifies this
      ensures Valid() && received == old(received) + [m] && sent == old(sent)
    {
      queue := queue[head := m];
      head := head + 1;
      received := received + [m];
    }

    method Dequeue() returns (m: Msg)
      requires Valid() && head != tail
      modifies this
      ensures Valid() && received == old(received) && sent == old(sent) + [m]
    {
      m := queue[tail];
      queue := queue - {tail};
      tail := tail + 1;
      sent := sent + [m];
    }
  }

  /** How many messages are handed on if `more` are still to come, `queued` are waiting, and the select statement makes
      these choices whenever it has one. After them everything that comes is received. */
  function Sends(more: nat, queued: nat, choices: seq<Choice>): (n: nat)
    ensures n <= more + queued
  {
    if choices == [] then 0
    else if queued > 0 && choices[0] == Send then 1 + Sends(more, queued - 1, choices[1..])
    else if more == 0 then 0  // the channel was closed
    else Sends(more - 1, queued + 1, choices[1..])
  }

  /** For every sequence of choices, what is handed on is the beginning of what was received, in order, as many messages
      as the choices say; the rest was still queued when the channel was closed. */
  method RunQueueingWriter(input: seq<Msg>, choices: seq<Choice>) returns (out: seq<Msg>, ghost rest: seq<Msg>)
    ensures out + rest == input && |out| == Sends(|input|, 0, choices)
  {
    var w := new QueueingWriter();
    out := [];
    var taken, turn := 0, 0;
    while true
      invariant fresh(w) && w.Valid() && taken <= |input| && turn <= |choices|
      invariant w.received == input[..taken] && w.sent == out
      invariant |out| + Sends(|input| - taken, w.head - w.tail, choices[turn..]) == Sends(|input|, 0, choices)
      decreases |input| - taken, w.head - w.tail
    {
      var choice := Receive;
      if turn < |choices| {
        choice := choices[turn];
        turn := turn + 1;
        assert choices[turn - 1..][1..] == choices[turn..];
      }
      if w.head == w.tail || choice == Receive {
        if taken == |input| {
          break;  // the channel was closed
        }
        w.Enqueue(input[taken]);
        taken := taken + 1;
        assert input[..taken] == input[..taken - 1] + [input[taken - 1]];
      } else {
        var m := w.Dequeue();
        out := out + [m];
      }
    }
    rest := input[|out|..];
  }

  /** Every number of messages can be the one that is handed on. */
  lemma AnyPrefix(n: nat, k: nat) returns (choices: seq<Choice>)
    requires k <= n
    ensures Sends(n, 0, choices) == k
  {
    choices := Alternating(k);
    AlternatingSends(n, k);
  }

  function Alternating(k: nat): seq<Choice> {
    if k == 0 then [] else [Receive, Send] + Alternating(k - 1)
  }

  lemma {:induction false} AlternatingSends(n: nat, k: nat)
    requires k <= n
    ensures Sends(n, 0, Alternating(k)) == k
  {
    if k > 0 {
      var choices := Alternating(k);
      assert choices[1..][1..] == Alternating(k - 1);
      AlternatingSends(n - 1, k - 1);
    }
  }

  // ---- Frames on the wire ----

  function Frame(m: Msg): seq<byte>
    requires |m| < TWO_TO_THE_32
  {
    Uint32ToBytes(|m|) + m
  }

  ghost predicate Sendable(messages: seq<Msg>, maxMessageSize: nat) {
    forall m | m in messages :: |m| <= maxMessageSize
  }

  ghost function Wire(messages: seq<Msg>): (w: seq<byte>)
    requires Sendable(messages, TWO_TO_THE_32 - 1)
  {
    if messages == [] then [] else Frame(messages[0]) + Wire(messages[1..])
  }

  function NonEmpty(messages: seq<Msg>): (r: seq<Msg>)
    ensures forall m | m in r :: m in messages && m != []
  {
    if messages == [] then []
    else (if messages[0] == [] then [] else [messages[0]]) + NonEmpty(messages[1..])
  }

  lemma {:induction false} WireAppend(messages: seq<Msg>, m: Msg)
    requires Sendable(messages + [m], TWO_TO_THE_32 - 1)
    ensures Sendable(messages, TWO_TO_THE_32 - 1) && |m| < TWO_TO_THE_32
    ensures Wire(messages + [m]) == Wire(messages) + Frame(m)
  {
    hide Frame;
    assert m in messages + [m];
    assert forall x | x in messages :: x in messages + [m];
    if messages == [] {
      assert (messages + [m])[1..] == [];
    } else {
      assert (messages + [m])[1..] == messages[1..] + [m];
      WireAppend(messages[1..], m);
    }
  }

  lemma {:induction false} NonEmptyAppend(messages: seq<Msg>, m: Msg)
    ensures NonEmpty(messages + [m]) == NonEmpty(messages) + if m == [] then [] else [m]
  {
    if messages == [] {
      assert (messages + [m])[1..] == [];
    } else {
      assert (messages + [m])[1..] == messages[1..] + [m];
      NonEmptyAppend(messages[1..], m);
    }
  }

  // ---- Writing ----

  /** The messages that peerWriter writes; `times` gives the clock for each message. A keep-alive is dropped if a
      message was written less than two minutes before. */
  function Kept(messages: seq<Msg>, times: seq<int>, lastWriteTime: Option<int>): (kept: seq<Msg>)
    requires |times| == |messages|
    ensures forall m | m in kept :: m in messages
    ensures NonEmpty(kept) == NonEmpty(messages)
  {
    if messages == [] then []
    else if messages[0] == [] && lastWriteTime.Some? && times[0] - lastWriteTime.value < KEEP_ALIVE_INTERVAL then
      Kept(messages[1..], times[1..], lastWriteTime)
    else
      var rest := Kept(messages[1..], times[1..], Some(times[0]));
      assert ([messages[0]] + rest)[1..] == rest;
      [messages[0]] + rest
  }

  /** At least two minutes pass before each message. */
  ghost predicate Spaced(times: seq<int>, last: Option<int>) {
    && (times != [] && last.Some? ==> times[0] - last.value >= KEEP_ALIVE_INTERVAL)
    && forall i | 0 < i < |times| :: times[i] - times[i - 1] >= KEEP_ALIVE_INTERVAL
  }

  /** No message is dropped after a silence of two minutes, keep-alives included. */
  lemma {:induction false} KeptWhenSilent(messages: seq<Msg>, times: seq<int>, last: Option<int>)
    requires |times| == |messages| && Spaced(times, last)
    ensures Kept(messages, times, last) == messages
    decreases |messages|
  {
    if messages != [] {
      KeptWhenSilent(messages[1..], times[1..], Some(times[0]));
    }
  }

  /** Every keep-alive is dropped as long as less than two minutes have passed since a message was written. */
  lemma {:induction false} DroppedWhenBusy(messages: seq<Msg>, times: seq<int>, last: int)
    requires |times| == |messages| && forall i, j | 0 <= i < j < |times| :: times[i] <= times[j]
    requires forall i | 0 <= i < |times| :: last <= times[i] < last + KEEP_ALIVE_INTERVAL
    ensures Kept(messages, times, Some(last)) == NonEmpty(messages)
    decreases |messages|
  {
    if messages != [] {
      DroppedWhenBusy(messages[1..], times[1..], if messages[0] == [] then last else times[0]);
    }
  }

  lemma {:induction false} WireConcat(x: seq<Msg>, y: seq<Msg>)
    requires Sendable(x + y, TWO_TO_THE_32 - 1)
    ensures Sendable(x, TWO_TO_THE_32 - 1) && Sendable(y, TWO_TO_THE_32 - 1)
    ensures Wire(x + y) == Wire(x) + Wire(y)
  {
    hide Frame;
    assert (forall m | m in x :: m in x + y) && forall m | m in y :: m in x + y;
    if x == [] {
      assert x + y == y;
    } else {
      assert (x + y)[0] == x[0];
      assert (x + y)[1..] == x[1..] + y;
      WireConcat(x[1..], y);
    }
  }

  /** What reaches the wire of a connection that takes `broken` bytes: the frames, cut there. */
  ghost function OnWire(messages: seq<Msg>, times: seq<int>, broken: nat): (wire: seq<byte>)
    requires |times| == |messages| && Sendable(messages, TWO_TO_THE_32 - 1)
  {
    var all := Wire(Kept(messages, times, None));
    all[..Min(broken, |all|)]
  }

  ghost predicate Drops(msg: Msg, now: int, lastWriteTime: Option<int>) {
    msg == [] && lastWriteTime.Some? && now - lastWriteTime.value < KEEP_ALIVE_INTERVAL
  }

  /** One message further. */
  lemma KeptStep(all: seq<Msg>, kept: seq<Msg>, messages: seq<Msg>, times: seq<int>, i: nat, last: Option<int>)
    requires |times| == |messages| && i < |messages|
    requires all == kept + Kept(messages[i..], times[i..], last)
    ensures all == if Drops(messages[i], times[i], last) then kept + Kept(messages[i + 1..], times[i + 1..], last)
                   else kept + [messages[i]] + Kept(messages[i + 1..], times[i + 1..], Some(times[i]))
  {
    assert messages[i..][1..] == messages[i + 1..] && times[i..][1..] == times[i + 1..];
  }

  /** The frame at which the connection breaks. */
  lemma CutFrame(all: seq<Msg>, kept: seq<Msg>, msg: Msg, rest: seq<Msg>, broken: nat)
    requires Sendable(all, TWO_TO_THE_32 - 1) && all == kept + [msg] + rest
    ensures Sendable(kept, TWO_TO_THE_32 - 1) && Sendable(kept + [msg], TWO_TO_THE_32 - 1) && |msg| < TWO_TO_THE_32
    ensures Wire(kept + [msg]) == Wire(kept) + Frame(msg)
    ensures |Wire(kept)| <= broken < |Wire(kept) + Frame(msg)|
            ==> broken < |Wire(all)| && Wire(kept) + Frame(msg)[..broken - |Wire(kept)|] == Wire(all)[..broken]
  {
    hide Frame, Wire;
    WireConcat(kept + [msg], rest);
    WireAppend(kept, msg);
    Cut(Wire(kept), Frame(msg), Wire(rest), broken);
  }

  lemma Cut(x: seq<byte>, y: seq<byte>, z: seq<byte>, n: nat)
    ensures |x| <= n < |x + y| ==> x + y[..n - |x|] == (x + y + z)[..n]
  {
  }

  /** peerWriter, which stops at the first write that fails. */
  method PeerWriter(messages: seq<Msg>, times: seq<int>, broken: nat) returns (wire: seq<byte>, complete: bool)
    requires |times| == |messages| && Sendable(messages, TWO_TO_THE_32 - 1)
    ensures wire == OnWire(messages, times, broken)
    ensures complete <==> |Wire(Kept(messages, times, None))| <= broken
  {
    hide Frame, Wire, Kept, Sendable, NonEmpty;
    wire, complete := [], true;
    var lastWriteTime: Option<int> := None;
    ghost var kept, all: seq<Msg> := [], Kept(messages, times, None);
    KeptFrom(messages, times);
    for i := 0 to |messages|
      invariant all == kept + Kept(messages[i..], times[i..], lastWriteTime) && Sendable(all, TWO_TO_THE_32 - 1)
      invariant Sendable(kept, TWO_TO_THE_32 - 1) && wire == Wire(kept) && |wire| <= broken
    {
      var msg, now := messages[i], times[i];
      KeptStep(all, kept, messages, times, i, lastWriteTime);
      if |msg| == 0 {
        if lastWriteTime.Some? && now - lastWriteTime.value < KEEP_ALIVE_INTERVAL {
          continue;
        }
      }
      lastWriteTime := Some(now);
      CutFrame(all, kept, msg, Kept(messages[i + 1..], times[i + 1..], lastWriteTime), broken);
      kept := kept + [msg];
      if |wire| + |Frame(msg)| > broken {
        wire := wire + Frame(msg)[..broken - |wire|];
        complete := false;
        return;
      }
      wire := wire + Frame(msg);
    }
    KeptTo(messages, times, lastWriteTime);
    assert all == kept;
  }

  lemma KeptFrom(messages: seq<Msg>, times: seq<int>)
    requires |times| == |messages| && Sendable(messages, TWO_TO_THE_32 - 1)
    ensures Kept(messages, times, None) == [] + Kept(messages[0..], times[0..], None)
    ensures Sendable(Kept(messages, times, None), TWO_TO_THE_32 - 1)
    ensures Sendable([], TWO_TO_THE_32 - 1) && Wire([]) == []
  {
    assert messages[0..] == messages && times[0..] == times;
  }

  lemma KeptTo(messages: seq<Msg>, times: seq<int>, last: Option<int>)
    requires |times| == |messages|
    ensures Kept(messages[|messages|..], times[|messages|..], last) == []
  {
  }

  lemma {:induction false} NonEmptyPrefix(messages: seq<Msg>, n: nat)
    requires n <= |messages|
    ensures NonEmpty(messages[..n]) <= NonEmpty(messages)
  {
    if n > 0 {
      NonEmptyPrefix(messages[1..], n - 1);
      assert messages[..n][1..] == messages[1..][..n - 1];
    }
  }

  // ---- Reading ----

  datatype ReadResult =
    | Message(buf: Msg, rest: seq<byte>)
    | EndOfStream      // nothing left, or the stream ends inside a frame
    | TooLarge(n: nat)

  /** readPeerMessage on what the connection still has to give. */
  function ReadPeerMessage(r: seq<byte>, maxMessageSize: nat): (result: ReadResult)
    ensures result.Message? ==> |result.buf| <= maxMessageSize && |result.buf| < TWO_TO_THE_32
                                && r == Frame(result.buf) + result.rest
  {
    if |r| < 4 then EndOfStream
    else
      var n := BytesToUint32(r[..4]);
      BytesRoundTrip(r[..4]);
      if n > maxMessageSize then TooLarge(n)
      else if |r| < 4 + n then EndOfStream
      else Message(r[4..4 + n], r[4 + n..])
  }

  /** Reading succeeds on every stream that starts with a frame of admissible size, and takes that frame off. */
  lemma ReadsFrame(m: Msg, rest: seq<byte>, maxMessageSize: nat)
    requires |m| < TWO_TO_THE_32 && |m| <= maxMessageSize
    ensures ReadPeerMessage(Frame(m) + rest, maxMessageSize) == Message(m, rest)
  {
    var r := Frame(m) + rest;
    assert r[..4] == Uint32ToBytes(|m|);
    Uint32RoundTrip(|m|);
  }

  /** peerReader: messages are passed on until the stream ends or a length is out of bounds. */
  method PeerReader(stream: seq<byte>, maxMessageSize: nat) returns (messages: seq<Msg>)
    ensures messages == ReadAll(stream, maxMessageSize)
  {
    messages := [];
    var r := stream;
    while true
      invariant messages + ReadAll(r, maxMessageSize) == ReadAll(stream, maxMessageSize)
      decreases |r|
    {
      var result := ReadPeerMessage(r, maxMessageSize);
      if !result.Message? {
        return;
      }
      messages := messages + [result.buf];
      r := result.rest;
    }
  }

  function ReadAll(r: seq<byte>, maxMessageSize: nat): seq<Msg>
    decreases |r|
  {
    var result := ReadPeerMessage(r, maxMessageSize);
    if result.Message? then [result.buf] + ReadAll(result.rest, maxMessageSize) else []
  }

  lemma PrefixSplit(stream: seq<byte>, frame: seq<byte>, tail: seq<byte>)
    requires stream <= frame + tail
    ensures |stream| >= |frame| ==> stream == frame + stream[|frame|..] && stream[|frame|..] <= tail
    ensures |stream| < |frame| ==> stream <= frame
  {
    var all := frame + tail;
    assert stream == all[..|stream|];
    if |stream| >= |frame| {
      assert stream[|frame|..] == tail[..|stream| - |frame|];
    } else {
      assert stream == frame[..|stream|];
    }
  }

  /** Whatever part of the frames arrives, the messages read from it are the first ones sent. */
  lemma {:induction false} ReadsPrefix(messages: seq<Msg>, stream: seq<byte>, maxMessageSize: nat)
    requires maxMessageSize < TWO_TO_THE_32 && Sendable(messages, maxMessageSize)
    requires stream <= Wire(messages)
    ensures ReadAll(stream, maxMessageSize) <= messages
  {
    if messages == [] {
    } else {
      var m, frame := messages[0], Frame(messages[0]);
      assert Sendable(messages[1..], maxMessageSize);
      PrefixSplit(stream, frame, Wire(messages[1..]));
      if |stream| >= |frame| {
        ReadsFrame(m, stream[|frame|..], maxMessageSize);
        ReadsPrefix(messages[1..], stream[|frame|..], maxMessageSize);
      } else {
        ReadsNothing(m, stream, maxMessageSize);
      }
    }
  }

  /** A frame that has not arrived in full yields no message. */
  lemma ReadsNothing(m: Msg, stream: seq<byte>, maxMessageSize: nat)
    requires |m| < TWO_TO_THE_32 && stream <= Frame(m) && |stream| < |Frame(m)|
    ensures ReadAll(stream, maxMessageSize) == []
  {
    if |stream| >= 4 {
      assert stream[..4] == Frame(m)[..4] == Uint32ToBytes(|m|);
      Uint32RoundTrip(|m|);
    }
  }

  /** A stream that arrives in full yields all messages. */
  lemma {:induction false} ReadsAll(messages: seq<Msg>, maxMessageSize: nat)
    requires maxMessageSize < TWO_TO_THE_32 && Sendable(messages, maxMessageSize)
    ensures ReadAll(Wire(messages), maxMessageSize) == messages
  {
    if messages == [] {
    } else {
      assert Sendable(messages[1..], maxMessageSize);
      assert Wire(messages) == Frame(messages[0]) + Wire(messages[1..]);
      ReadsFrame(messages[0], Wire(messages[1..]), maxMessageSize);
      ReadsAll(messages[1..], maxMessageSize);
    }
  }

  /** From sendMessage to the other side: the queue hands on a prefix of its input, the writer puts the frames on the
      wire as far as the connection takes them, and the non-empty messages that come out of the reader are the first of
      those that went in; all of them, if nothing was left in the queue and the connection held. */
  lemma StreamRoundTrip(sent: seq<Msg>, queued: seq<Msg>, rest: seq<Msg>, times: seq<int>, broken: nat,
                        maxMessageSize: nat)
    requires maxMessageSize < TWO_TO_THE_32 && queued + rest == sent && |times| == |queued|
    requires Sendable(sent, maxMessageSize)
    ensures Sendable(queued, TWO_TO_THE_32 - 1)
    ensures NonEmpty(ReadAll(OnWire(queued, times, broken), maxMessageSize)) <= NonEmpty(sent)
    ensures rest == [] && |Wire(Kept(queued, times, None))| <= broken
            ==> NonEmpty(ReadAll(OnWire(queued, times, broken), maxMessageSize)) == NonEmpty(sent)
  {
    hide Frame, Wire, ReadAll, ReadPeerMessage, NonEmpty;
    var kept := Kept(queued, times, None);
    assert queued == sent[..|queued|];
    assert forall m | m in queued :: m in sent;
    var wire := OnWire(queued, times, broken);
    var read := ReadAll(wire, maxMessageSize);
    ReadsPrefix(kept, wire, maxMessageSize);
    assert read == kept[..|read|];
    NonEmptyPrefix(kept, |read|);
    NonEmptyPrefix(sent, |queued|);
    if |Wire(kept)| <= broken {
      assert wire == Wire(kept);
      ReadsAll(kept, maxMessageSize);
    }
  }
}
